// The evaluation pipeline: one thread loads prompts into a queue, rollout threads on all ranks take
// them and put samples into a second queue, and one thread writes these to disk. The end of the work
// is passed on as one None for each rollout thread. A run is any sequence of steps of the threads.
module Evals {
  import opened Basics

  /** What identifies a problem: a task name and a data source. */
  datatype Source = Source(task: string, origin: string)

  /** A line of a dataset, with the number of samples wanted. */
  datatype Row = Row(source: Source, needed: nat)

  // ---------- loading ----------

  /** The samples still wanted for each line, as often as they are wanted. */
  function Jobs(previous: multiset<Source>, dataset: seq<Row>): seq<Source> {
    if dataset == [] then []
    else
      var row := dataset[|dataset| - 1];
      Jobs(previous, dataset[..|dataset| - 1]) + Times(row.source, Missing(previous, row))
  }

  function Missing(previous: multiset<Source>, row: Row): nat {
    if row.needed > previous[row.source] then row.needed - previous[row.source] else 0
  }

  function Times<T>(x: T, n: nat): seq<T> { seq(n, _ => x) }

  function Wrap(jobs: seq<Source>): seq<Option<Source>> { seq(|jobs|, i requires 0 <= i < |jobs| => Some(jobs[i])) }

  /** Everything the loader puts into the queue. */
  function Plan(jobs: seq<Source>, threads: nat): seq<Option<Source>> { Wrap(jobs) + Times(None, threads) }

  /** What was sampled before is counted from the file; a count that is not there is 0. */
  method CountSources(lines: seq<Source>) returns (counts: map<Source, nat>)
    ensures forall s :: (if s in counts then counts[s] else 0) == multiset(lines)[s]
  {
    counts := map[];
    for i := 0 to |lines|
      invariant forall s :: (if s in counts then counts[s] else 0) == multiset(lines[..i])[s]
    {
      assert lines[..i + 1] == lines[..i] + [lines[i]];
      counts := counts[lines[i] := (if lines[i] in counts then counts[lines[i]] else 0) + 1];
    }
    assert lines[..|lines|] == lines;
  }

  method LoadData(lines: seq<Source>, dataset: seq<Row>, threads: nat) returns (puts: seq<Option<Source>>)
    ensures puts == Plan(Jobs(multiset(lines), dataset), threads)
  {
    var counts := CountSources(lines);
    ghost var previous := multiset(lines);
    puts := [];
    assert dataset[..0] == [];
    for i := 0 to |dataset|
      invariant puts == Wrap(Jobs(previous, dataset[..i]))
    {
      var row := dataset[i];
      assert dataset[..i + 1][..i] == dataset[..i];
      var missing := row.needed - if row.source in counts then counts[row.source] else 0;
      ghost var before := Jobs(previous, dataset[..i]);
      assert before + Times(row.source, 0) == before;
      for k := 0 to if missing > 0 then missing else 0
        invariant puts == Wrap(before + Times(row.source, k))
      {
        assert before + Times(row.source, k + 1) == before + Times(row.source, k) + [row.source];
        puts := puts + [Some(row.source)];
      }
    }
    assert dataset[..|dataset|] == dataset;
    ghost var wrapped := puts;
    for k := 0 to threads
      invariant puts == wrapped + Times(None, k)
    {
      puts := puts + [None];
    }
  }

  /** What is wanted for one source, over all the lines that name it. */
  function Owed(previous: multiset<Source>, dataset: seq<Row>, s: Source): nat {
    if dataset == [] then 0
    else
      var row := dataset[|dataset| - 1];
      Owed(previous, dataset[..|dataset| - 1], s) + if row.source == s then Missing(previous, row) else 0
  }

  lemma {:induction false} TimesCount<T>(x: T, n: nat, y: T)
    ensures multiset(Times(x, n))[y] == if x == y then n else 0
  {
    if n > 0 {
      TimesCount(x, n - 1, y);
      assert Times(x, n) == Times(x, n - 1) + [x];
    } else {
      assert Times(x, n) == [];
    }
  }

  lemma {:induction false} JobsCount(previous: multiset<Source>, dataset: seq<Row>, s: Source)
    ensures multiset(Jobs(previous, dataset))[s] == Owed(previous, dataset, s)
  {
    if dataset != [] {
      var row := dataset[|dataset| - 1];
      JobsCount(previous, dataset[..|dataset| - 1], s);
      TimesCount(row.source, Missing(previous, row), s);
    }
  }

  /** The largest number wanted on a line that names the source. */
  function Needed(dataset: seq<Row>, s: Source): nat {
    if dataset == [] then 0
    else
      var row := dataset[|dataset| - 1];
      Max(Needed(dataset[..|dataset| - 1], s), if row.source == s then row.needed else 0)
  }

  /** How many lines that name the source want more than there is. */
  function Short(previous: multiset<Source>, dataset: seq<Row>, s: Source): nat {
    if dataset == [] then 0
    else
      var row := dataset[|dataset| - 1];
      Short(previous, dataset[..|dataset| - 1], s) + if row.source == s && Missing(previous, row) > 0 then 1 else 0
  }

  /** What is owed is what the most demanding line misses, unless a second line misses something too. */
  lemma {:induction false} OwedMost(previous: multiset<Source>, dataset: seq<Row>, s: Source)
    ensures var most := Missing(previous, Row(s, Needed(dataset, s)));
      if Short(previous, dataset, s) == 0 then Owed(previous, dataset, s) == most == 0
      else if Short(previous, dataset, s) == 1 then Owed(previous, dataset, s) == most > 0
      else Owed(previous, dataset, s) > most > 0
  {
    if dataset != [] { OwedMost(previous, dataset[..|dataset| - 1], s); }
  }

  // ---------- the threads ----------

  datatype Thread = Waiting | Busy(job: Source) | Stopped

  /**
   * todo: what the loader has not put yet; data, dump: the queues; taken, sent, got: all that was
   * taken from the first, put into the second and taken from it; good, bad: rollouts that ended.
   */
  datatype State = State(todo: seq<Option<Source>>, data: seq<Option<Source>>, taken: seq<Option<Source>>,
    threads: seq<Thread>, good: seq<Source>, bad: seq<Source>,
    sent: seq<Option<Source>>, dump: seq<Option<Source>>, got: seq<Option<Source>>,
    written: seq<Source>, kills: nat, dumped: bool)

  datatype Event = Load | Take(t: nat) | Succeed(t: nat) | Fail(t: nat) | Dump

  /** Above this length the loader waits before it puts another prompt. */
  const HIGH := 200

  function Start(jobs: seq<Source>, threads: nat): State {
    State(Plan(jobs, threads), [], [], Times(Waiting, threads), [], [], [], [], [], [], 0, false)
  }

  function Step(s: State, e: Event): Option<State> {
    match e
    case Load =>
      if s.todo != [] && (s.todo[0].Some? ==> |s.data| <= HIGH) then
        Some(s.(todo := s.todo[1..], data := s.data + [s.todo[0]]))
      else None
    case Take(t) =>
      if t < |s.threads| && s.threads[t].Waiting? && s.data != [] then
        var s' := s.(data := s.data[1..], taken := s.taken + [s.data[0]]);
        match s.data[0]
        case None => Some(s'.(threads := s.threads[t := Stopped], sent := s.sent + [None], dump := s.dump + [None]))
        case Some(job) => Some(s'.(threads := s.threads[t := Busy(job)]))
      else None
    case Succeed(t) =>
      if t < |s.threads| && s.threads[t].Busy? then
        var job := s.threads[t].job;
        Some(s.(threads := s.threads[t := Waiting], good := s.good + [job], sent := s.sent + [Some(job)],
          dump := s.dump + [Some(job)]))
      else None
    case Fail(t) =>
      if t < |s.threads| && s.threads[t].Busy? then
        Some(s.(threads := s.threads[t := Waiting], bad := s.bad + [s.threads[t].job]))
      else None
    case Dump =>
      if !s.dumped && s.dump != [] then
        var s' := s.(dump := s.dump[1..], got := s.got + [s.dump[0]]);
        match s.dump[0]
        case None => Some(s'.(kills := s.kills + 1, dumped := s.kills + 1 >= |s.threads|))
        case Some(job) => Some(s'.(written := s.written + [job]))
      else None
  }

  // ---------- what a queue held ----------

  function Nones(q: seq<Option<Source>>): nat {
    if q == [] then 0 else Nones(q[..|q| - 1]) + if q[|q| - 1].None? then 1 else 0
  }

  function Somes(q: seq<Option<Source>>): seq<Source> {
    if q == [] then [] else Somes(q[..|q| - 1]) + if q[|q| - 1].Some? then [q[|q| - 1].value] else []
  }

  lemma {:induction false} Joined(p: seq<Option<Source>>, q: seq<Option<Source>>)
    ensures Nones(p + q) == Nones(p) + Nones(q) && Somes(p + q) == Somes(p) + Somes(q)
    decreases |q|
  {
    if q == [] {
      assert p + q == p;
    } else {
      assert (p + q)[..|p + q| - 1] == p + q[..|q| - 1];
      Joined(p, q[..|q| - 1]);
    }
  }

  lemma {:induction false} PlanParts(jobs: seq<Source>, threads: nat)
    ensures Nones(Plan(jobs, threads)) == threads && Somes(Plan(jobs, threads)) == jobs
  {
    Joined(Wrap(jobs), Times(None, threads));
    WrapParts(jobs);
    NoneParts(threads);
  }

  lemma {:induction false} WrapParts(jobs: seq<Source>)
    ensures Nones(Wrap(jobs)) == 0 && Somes(Wrap(jobs)) == jobs
  {
    if jobs != [] {
      WrapParts(jobs[..|jobs| - 1]);
      assert Wrap(jobs)[..|jobs| - 1] == Wrap(jobs[..|jobs| - 1]);
    }
  }

  lemma {:induction false} NoneParts(n: nat)
    ensures Nones(Times(None, n)) == n && Somes(Times(None, n)) == []
  {
    if n > 0 {
      NoneParts(n - 1);
      assert Times<Option<Source>>(None, n)[..n - 1] == Times(None, n - 1);
    }
  }

  // ---------- what the threads hold ----------

  function Stops(threads: seq<Thread>): nat {
    if threads == [] then 0 else Stops(threads[..|threads| - 1]) + if threads[|threads| - 1].Stopped? then 1 else 0
  }

  function Held(threads: seq<Thread>): multiset<Source> {
    if threads == [] then multiset{} else Held(threads[..|threads| - 1]) + Of(threads[|threads| - 1])
  }

  function Of(t: Thread): multiset<Source> { if t.Busy? then multiset{t.job} else multiset{} }

  lemma {:induction false} StopsChange(threads: seq<Thread>, t: nat, x: Thread)
    requires t < |threads|
    ensures Stops(threads[t := x]) + (if threads[t].Stopped? then 1 else 0)
      == Stops(threads) + if x.Stopped? then 1 else 0
    decreases |threads|
  {
    var n := |threads| - 1;
    if t == n {
      assert threads[t := x][..n] == threads[..n];
    } else {
      StopsChange(threads[..n], t, x);
      assert threads[t := x][..n] == threads[..n][t := x];
    }
  }

  lemma {:induction false} HeldChange(threads: seq<Thread>, t: nat, x: Thread)
    requires t < |threads|
    ensures Held(threads[t := x]) + Of(threads[t]) == Held(threads) + Of(x)
    decreases |threads|
  {
    hide Of;
    var n := |threads| - 1;
    var after := threads[t := x];
    if t == n {
      assert after[..n] == threads[..n];
    } else {
      HeldChange(threads[..n], t, x);
      assert after[..n] == threads[..n][t := x] && after[n] == threads[n];
      var a, b, c := Held(after[..n]), Held(threads[..n]), Of(threads[n]);
      assert Held(after) == a + c && Held(threads) == b + c;
      assert (a + Of(threads[t])) + c == (b + Of(x)) + c;
      assert Held(after) + Of(threads[t]) == (a + Of(threads[t])) + c;
      assert Held(threads) + Of(x) == (b + Of(x)) + c;
    }
  }

  /** One thread changes. */
  lemma Changes(threads: seq<Thread>, t: nat, x: Thread)
    requires t < |threads|
    ensures Stops(threads[t := x]) + (if threads[t].Stopped? then 1 else 0)
      == Stops(threads) + if x.Stopped? then 1 else 0
    ensures Held(threads[t := x]) + Of(threads[t]) == Held(threads) + Of(x)
  {
    StopsChange(threads, t, x); HeldChange(threads, t, x);
  }

  lemma Fills(threads: seq<Thread>, t: nat, job: Source)
    requires t < |threads| && threads[t].Waiting?
    ensures Held(threads[t := Busy(job)]) == Held(threads) + multiset{job}
      && Stops(threads[t := Busy(job)]) == Stops(threads)
  {
    hide Held, Stops;
    Changes(threads, t, Busy(job));
    assert Held(threads[t := Busy(job)]) + multiset{} == Held(threads[t := Busy(job)]);
  }

  lemma Frees(threads: seq<Thread>, t: nat)
    requires t < |threads| && threads[t].Busy?
    ensures Held(threads) == Held(threads[t := Waiting]) + multiset{threads[t].job}
    ensures Stops(threads[t := Waiting]) == Stops(threads) < |threads|
  {
    hide Held, Stops;
    Changes(threads, t, Waiting);
    assert Held(threads) + multiset{} == Held(threads);
    StopsBound(threads);
    assert threads[t] in threads;
  }

  lemma Halts(threads: seq<Thread>, t: nat)
    requires t < |threads| && threads[t].Waiting?
    ensures Held(threads[t := Stopped]) == Held(threads) && Stops(threads[t := Stopped]) == Stops(threads) + 1
  {
    hide Held, Stops;
    Changes(threads, t, Stopped);
    assert Held(threads) + multiset{} == Held(threads);
    assert Held(threads[t := Stopped]) + multiset{} == Held(threads[t := Stopped]);
  }

  lemma {:induction false} StopsBound(threads: seq<Thread>)
    ensures Stops(threads) <= |threads|
    ensures Stops(threads) == |threads| ==> Held(threads) == multiset{} && forall t <- threads :: t.Stopped?
  {
    if threads != [] { StopsBound(threads[..|threads| - 1]); }
  }

  lemma {:induction false} NobodyStops(n: nat)
    ensures Stops(Times(Waiting, n)) == 0 && Held(Times(Waiting, n)) == multiset{}
  {
    if n > 0 {
      NobodyStops(n - 1);
      assert Times(Waiting, n)[..n - 1] == Times(Waiting, n - 1);
    }
  }

  // ---------- the invariant ----------

  /** Nothing is lost or overtaken in the first queue, and what was taken from it is accounted for. */
  ghost predicate Fed(plan: seq<Option<Source>>, s: State) {
    && s.taken + s.data + s.todo == plan
    && Nones(s.taken) == Stops(s.threads)
    && multiset(Somes(s.taken)) == Held(s.threads) + multiset(s.good) + multiset(s.bad)
  }

  /** Nothing is lost or overtaken in the second queue, and the last to be put there is a None. */
  ghost predicate Dumped(s: State) {
    && s.got + s.dump == s.sent
    && Nones(s.sent) == Stops(s.threads) && Somes(s.sent) == s.good
    && s.kills == Nones(s.got) && s.written == Somes(s.got) && (s.dumped <==> s.kills >= |s.threads|)
    && (Stops(s.threads) == |s.threads| ==> s.sent != [] && s.sent[|s.sent| - 1].None?)
  }

  ghost predicate Inv(plan: seq<Option<Source>>, s: State) {
    |s.threads| > 0 && Fed(plan, s) && Dumped(s)
  }

  lemma StartInv(jobs: seq<Source>, threads: nat)
    requires threads > 0
    ensures Inv(Plan(jobs, threads), Start(jobs, threads))
  {
    NobodyStops(threads);
  }

  lemma One(x: Option<Source>)
    ensures Nones([x]) == (if x.None? then 1 else 0) && Somes([x]) == if x.Some? then [x.value] else []
  {
    assert [x][..0] == [];
  }

  lemma Put(q: seq<Option<Source>>, x: Option<Source>)
    ensures Nones(q + [x]) == Nones(q) + (if x.None? then 1 else 0)
    ensures Somes(q + [x]) == Somes(q) + if x.Some? then [x.value] else []
  {
    Joined(q, [x]); One(x);
  }

  /** A thread takes a prompt. */
  lemma TakeJobKeeps(plan: seq<Option<Source>>, s: State, t: nat)
    requires Inv(plan, s) && Step(s, Take(t)).Some? && s.data[0].Some?
    ensures Inv(plan, Step(s, Take(t)).value)
  {
    hide Nones, Somes, Stops, Held;
    var x := s.data[0];
    Put(s.taken, x);
    Fills(s.threads, t, x.value);
    StopsBound(s.threads);
    assert s.taken + [x] + s.data[1..] == s.taken + s.data;
    assert multiset(Somes(s.taken) + [x.value]) == multiset(Somes(s.taken)) + multiset{x.value};
    assert Stops(s.threads) < |s.threads| by { assert s.threads[t] in s.threads; }
  }

  /** A thread is told to stop. */
  lemma TakeNoneKeeps(plan: seq<Option<Source>>, s: State, t: nat)
    requires Inv(plan, s) && Step(s, Take(t)).Some? && s.data[0].None?
    ensures Inv(plan, Step(s, Take(t)).value)
  {
    hide Nones, Somes, Stops, Held;
    Put(s.taken, None); Put(s.sent, None);
    Halts(s.threads, t);
    assert s.taken + [s.data[0]] + s.data[1..] == s.taken + s.data;
    assert s.got + (s.dump + [None]) == s.sent + [None];
    assert Somes(s.taken) + [] == Somes(s.taken) && Somes(s.sent) + [] == Somes(s.sent);
  }

  lemma SucceedKeeps(plan: seq<Option<Source>>, s: State, t: nat)
    requires Inv(plan, s) && Step(s, Succeed(t)).Some?
    ensures Inv(plan, Step(s, Succeed(t)).value)
  {
    hide Nones, Somes, Stops, Held;
    var job := s.threads[t].job;
    Put(s.sent, Some(job));
    Frees(s.threads, t);
    assert s.got + (s.dump + [Some(job)]) == s.sent + [Some(job)];
    assert multiset(s.good + [job]) == multiset(s.good) + multiset{job};
  }

  lemma FailKeeps(plan: seq<Option<Source>>, s: State, t: nat)
    requires Inv(plan, s) && Step(s, Fail(t)).Some?
    ensures Inv(plan, Step(s, Fail(t)).value)
  {
    hide Nones, Somes, Stops, Held;
    var job := s.threads[t].job;
    Frees(s.threads, t);
    assert multiset(s.bad + [job]) == multiset(s.bad) + multiset{job};
  }

  lemma DumpKeeps(plan: seq<Option<Source>>, s: State)
    requires Inv(plan, s) && Step(s, Dump).Some?
    ensures Inv(plan, Step(s, Dump).value)
  {
    hide Nones, Somes, Stops, Held;
    Put(s.got, s.dump[0]);
    assert s.got + [s.dump[0]] + s.dump[1..] == s.got + s.dump;
  }

  lemma LoadKeeps(plan: seq<Option<Source>>, s: State)
    requires Inv(plan, s) && Step(s, Load).Some?
    ensures Inv(plan, Step(s, Load).value)
  {
    hide Nones, Somes, Stops, Held;
    assert s.taken + (s.data + [s.todo[0]]) + s.todo[1..] == s.taken + s.data + s.todo;
  }

  lemma StepKeeps(plan: seq<Option<Source>>, s: State, e: Event)
    requires Inv(plan, s) && Step(s, e).Some?
    ensures Inv(plan, Step(s, e).value) && |Step(s, e).value.threads| == |s.threads|
  {
    hide Inv;
    match e
    case Load => LoadKeeps(plan, s);
    case Take(t) => if s.data[0].Some? { TakeJobKeeps(plan, s, t); } else { TakeNoneKeeps(plan, s, t); }
    case Succeed(t) => SucceedKeeps(plan, s, t);
    case Fail(t) => FailKeeps(plan, s, t);
    case Dump => DumpKeeps(plan, s);
  }

  // ---------- runs ----------

  function Run(jobs: seq<Source>, threads: nat, es: seq<Event>): Option<State> {
    if es == [] then Some(Start(jobs, threads))
    else
      var s := Run(jobs, threads, es[..|es| - 1]);
      if s.None? then None else Step(s.value, es[|es| - 1])
  }

  lemma {:induction false} RunInv(jobs: seq<Source>, threads: nat, es: seq<Event>)
    requires threads > 0 && Run(jobs, threads, es).Some?
    ensures Inv(Plan(jobs, threads), Run(jobs, threads, es).value) && |Run(jobs, threads, es).value.threads| == threads
    decreases |es|
  {
    if es == [] {
      StartInv(jobs, threads);
    } else {
      RunInv(jobs, threads, es[..|es| - 1]);
      StepKeeps(Plan(jobs, threads), Run(jobs, threads, es[..|es| - 1]).value, es[|es| - 1]);
    }
  }

  /** What follows is empty, or it holds the None at the end. */
  lemma AtTheEnd(p: seq<Option<Source>>, q: seq<Option<Source>>)
    requires p + q != [] && (p + q)[|p + q| - 1].None?
    ensures q == [] || Nones(q) > 0
  {
    if q != [] { assert (p + q)[|p + q| - 1] == q[|q| - 1]; }
  }

  lemma PlanEnds(jobs: seq<Source>, threads: nat)
    requires threads > 0
    ensures Plan(jobs, threads) != [] && Plan(jobs, threads)[|Plan(jobs, threads)| - 1].None?
  {
  }

  /** Every None has been taken only when everything has. */
  lemma AllTaken(jobs: seq<Source>, threads: nat, taken: seq<Option<Source>>, rest: seq<Option<Source>>)
    requires taken + rest == Plan(jobs, threads) && Nones(taken) == threads > 0
    ensures rest == [] && Somes(taken) == jobs
  {
    hide Nones, Somes;
    PlanParts(jobs, threads);
    Joined(taken, rest);
    PlanEnds(jobs, threads);
    AtTheEnd(taken, rest);
    assert taken + [] == taken;
  }

  lemma DumpEmpty(plan: seq<Option<Source>>, s: State)
    requires Inv(plan, s) && s.dumped
    ensures s.dump == [] && s.written == s.good && Stops(s.threads) == |s.threads|
  {
    hide Nones, Somes, Stops, Held;
    StopsBound(s.threads);
    Joined(s.got, s.dump);
    AtTheEnd(s.got, s.dump);
    assert s.got + [] == s.got;
  }

  /**
   * In every run, when the dumping thread returns: each rollout that succeeded has been written,
   * once and in the order in which it was put; every prompt led to a success or a failure; every
   * rollout thread has stopped and both queues are empty.
   */
  lemma Finished(jobs: seq<Source>, threads: nat, es: seq<Event>)
    requires threads > 0 && Run(jobs, threads, es).Some? && Run(jobs, threads, es).value.dumped
    ensures var s := Run(jobs, threads, es).value;
      && s.written == s.good && multiset(s.good) + multiset(s.bad) == multiset(jobs)
      && (forall t <- s.threads :: t.Stopped?) && s.data == s.todo == s.dump == []
  {
    RunInv(jobs, threads, es);
    var s := Run(jobs, threads, es).value;
    hide Run, Plan, Inv;
    DumpEmpty(Plan(jobs, threads), s);
    DataEmpty(jobs, threads, s);
  }

  lemma DataEmpty(jobs: seq<Source>, threads: nat, s: State)
    requires Inv(Plan(jobs, threads), s) && Stops(s.threads) == |s.threads| == threads
    ensures multiset(s.good) + multiset(s.bad) == multiset(jobs)
    ensures (forall t <- s.threads :: t.Stopped?) && s.data == s.todo == []
  {
    hide Held, Somes, Plan, Nones, Stops, Dumped;
    StopsBound(s.threads);
    assert s.taken + (s.data + s.todo) == s.taken + s.data + s.todo;
    AllTaken(jobs, threads, s.taken, s.data + s.todo);
    assert multiset{} + multiset(s.good) + multiset(s.bad) == multiset(s.good) + multiset(s.bad);
  }

  /** Until the dumping thread returns, some thread can take a step. */
  lemma NoDeadlock(jobs: seq<Source>, threads: nat, es: seq<Event>)
    requires threads > 0 && Run(jobs, threads, es).Some? && !Run(jobs, threads, es).value.dumped
    ensures exists e :: Step(Run(jobs, threads, es).value, e).Some?
  {
    RunInv(jobs, threads, es);
    var s := Run(jobs, threads, es).value;
    hide Run, Held, Somes, Plan, Inv;
    if s.dump != [] {
      CanDump(s);
    } else if t: nat :| t < |s.threads| && s.threads[t].Busy? {
      assert Step(s, Fail(t)).Some?;
    } else {
      var t := OneWaits(Plan(jobs, threads), s);
      if s.data != [] {
        CanTake(s, t);
      } else {
        MoreToCome(jobs, threads, s);
        assert Step(s, Load).Some?;
      }
    }
  }

  lemma CanDump(s: State)
    requires !s.dumped && s.dump != []
    ensures Step(s, Dump).Some?
  {
  }

  lemma CanTake(s: State, t: nat)
    requires t < |s.threads| && s.threads[t].Waiting? && s.data != []
    ensures Step(s, Take(t)).Some?
  {
  }

  lemma OneWaits(plan: seq<Option<Source>>, s: State) returns (t: nat)
    requires Inv(plan, s) && !s.dumped && s.dump == [] && forall i: nat :: i < |s.threads| ==> !s.threads[i].Busy?
    ensures t < |s.threads| && s.threads[t].Waiting?
  {
    assert s.got + [] == s.got;
    AllStopped(s.threads);
    t :| t < |s.threads| && s.threads[t].Waiting?;
  }

  lemma {:induction false} AllStopped(threads: seq<Thread>)
    ensures (forall i: nat :: i < |threads| ==> threads[i].Stopped?) ==> Stops(threads) == |threads|
  {
    if threads != [] { AllStopped(threads[..|threads| - 1]); }
  }

  lemma MoreToCome(jobs: seq<Source>, threads: nat, s: State)
    requires Inv(Plan(jobs, threads), s) && |s.threads| == threads && !s.dumped && s.dump == s.data == []
    ensures s.todo != []
  {
    hide Nones, Somes, Stops, Held, Plan;
    PlanParts(jobs, threads);
    assert s.got + [] == s.got && s.taken + [] == s.taken;
  }

  /** How much there is left to do. */
  function Left(s: State): nat { 5 * |s.todo| + 4 * |s.data| + 3 * |Held(s.threads)| + |s.dump| }

  lemma LessLeft(s: State, e: Event)
    requires Step(s, e).Some?
    ensures Left(Step(s, e).value) < Left(s)
  {
    match e
    case Take(t) => TakenLeft(s, t);
    case Succeed(t) => Sizes(s.threads, t, Waiting);
    case Fail(t) => Sizes(s.threads, t, Waiting);
    case _ =>
  }

  lemma TakenLeft(s: State, t: nat)
    requires Step(s, Take(t)).Some?
    ensures Left(Step(s, Take(t)).value) < Left(s)
  {
    var x := Step(s, Take(t)).value.threads[t];
    Sizes(s.threads, t, x);
    assert |Of(s.threads[t])| == 0 && |Of(x)| <= 1;
    hide Held, Of;
  }

  lemma Sizes(threads: seq<Thread>, t: nat, x: Thread)
    requires t < |threads|
    ensures |Held(threads[t := x])| + |Of(threads[t])| == |Held(threads)| + |Of(x)|
  {
    Changes(threads, t, x);
    assert |Held(threads[t := x]) + Of(threads[t])| == |Held(threads) + Of(x)|;
  }

  /** Every run ends: it has no more steps than this. */
  lemma {:induction false} Bounded(jobs: seq<Source>, threads: nat, es: seq<Event>)
    requires Run(jobs, threads, es).Some?
    ensures |es| + Left(Run(jobs, threads, es).value) <= 5 * (|jobs| + threads)
    decreases |es|
  {
    if es == [] {
      NobodyStops(threads);
    } else {
      Bounded(jobs, threads, es[..|es| - 1]);
      LessLeft(Run(jobs, threads, es[..|es| - 1]).value, es[|es| - 1]);
    }
  }

  /**
   * A run in which no rollout fails brings each source to what was there and what was owed. That is
   * the larger of what was there and what its most demanding line wants exactly if no second line
   * that names it wants more than was there.
   */
  lemma Resumed(lines: seq<Source>, dataset: seq<Row>, threads: nat, es: seq<Event>, s: Source)
    requires threads > 0
    requires var r := Run(Jobs(multiset(lines), dataset), threads, es); r.Some? && r.value.dumped && r.value.bad == []
    ensures var all := multiset(lines + Run(Jobs(multiset(lines), dataset), threads, es).value.written);
      && all[s] == multiset(lines)[s] + Owed(multiset(lines), dataset, s)
      && (all[s] == Max(Needed(dataset, s), multiset(lines)[s]) <==> Short(multiset(lines), dataset, s) <= 1)
  {
    var previous := multiset(lines);
    Finished(Jobs(previous, dataset), threads, es);
    hide Run, Jobs, Owed, Needed, Short;
    JobsCount(previous, dataset, s);
    OwedMost(previous, dataset, s);
  }
}
