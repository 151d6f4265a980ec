// The sandbox server: one process reads commands from a pipe, forks a child for each program it is
// asked to start, and keeps a pool of persistent sandboxes that are handed from one child to the next.
module Servers {
  import opened Basics
  import opened Seqs

  datatype Limits = Limits(memory: Option<nat>, tmpfs: Option<nat>, cpu: Option<nat>)

  datatype Command = Spawn(vpid: nat, persistent: bool, limits: Limits) | Kill(vpid: nat) | Exit | Unknown

  /**
   * What is found in the pipe of a child when it is killed: nothing, the byte sent at the end, another byte,
   * or its end.
   */
  datatype Signal = Silent | One | Other | Closed

  /** Where starting a program may raise an exception: after the fork of a new worker, or after that of the child. */
  datatype Fault = Fine | AfterWorker | AfterChild

  /** A persistent sandbox is not used for more than this many programs. */
  const MOST := 20

  // ---------- processes ----------

  /** The children of this process that have not been waited for. The system may give out a pid again after that. */
  class Processes {
    var live: set<nat>
    ghost var forked: seq<nat>
    ghost var killed: seq<nat>

    constructor ()
      ensures Valid() && live == {} && forked == [] && killed == []
    {
      live, forked, killed := {}, [], [];
    }

    ghost predicate Valid()
      reads this
    {
      multiset(forked) == multiset(killed) + multiset(live)
    }

    /** Any pid that is not in use. */
    method Fork() returns (pid: nat)
      requires Valid()
      modifies this
      ensures Valid() && pid !in old(live) && live == old(live) + {pid}
      ensures forked == old(forked) + [pid] && killed == old(killed)
    {
      Unused(live);
      pid :| pid !in live;
      live, forked := live + {pid}, forked + [pid];
    }

    /** `killpid`, of a process that is there. */
    method KillPid(pid: nat)
      requires Valid() && pid in live
      modifies this
      ensures Valid() && live == old(live) - {pid}
      ensures forked == old(forked) && killed == old(killed) + [pid]
    {
      live, killed := live - {pid}, killed + [pid];
    }
  }

  lemma {:induction false} Below(s: set<nat>) returns (n: nat)
    ensures forall x <- s :: x < n
  {
    if s == {} {
      n := 0;
    } else {
      var y :| y in s;
      var m := Below(s - {y});
      n := Max(m, y + 1);
      assert forall x <- s :: x == y || x in s - {y};
    }
  }

  lemma Unused(s: set<nat>)
    ensures exists pid: nat :: pid !in s
  {
    var n := Below(s);
    assert n !in s;
  }

  // ---------- the pool ----------

  class Worker {
    const pid: nat
    const limits: Limits
    var busy: bool
    var numDone: nat

    constructor (pid: nat, limits: Limits)
      ensures this.pid == pid && this.limits == limits && !busy && numDone == 0
    {
      this.pid, this.limits, busy, numDone := pid, limits, false, 0;
    }
  }

  /** What the server knows of a child it started. */
  datatype Child = Plain(pid: nat) | Held(pid: nat, worker: Worker)

  /** Whose process it is. */
  datatype Owner = Started(vpid: nat) | Pooled(worker: Worker)

  function Without(ws: seq<Worker>, w: Worker): seq<Worker> {
    if ws == [] then []
    else if ws[|ws| - 1] == w then Without(ws[..|ws| - 1], w)
    else Without(ws[..|ws| - 1], w) + [ws[|ws| - 1]]
  }

  lemma {:induction false} WithoutOne(ws: seq<Worker>, w: Worker)
    requires NoDup(ws)
    ensures NoDup(Without(ws, w)) && (forall u <- Without(ws, w) :: u in ws && u != w)
    ensures forall u <- ws :: u != w ==> u in Without(ws, w)
  {
    if ws != [] {
      var vs, u := ws[..|ws| - 1], ws[|ws| - 1];
      WithoutOne(vs, w);
      assert ws == vs + [u];
      assert u !in vs && u !in Without(vs, w);
    }
  }

  /** A child holds no worker or one, and the holder of a worker is known. */
  ghost predicate Loans(pids: map<nat, Child>, workers: seq<Worker>, holder: map<Worker, nat>) {
    && NoDup(workers) && (forall w <- holder :: w in workers)
    && (forall w <- holder :: holder[w] in pids && pids[holder[w]].Held? && pids[holder[w]].worker == w)
    && (forall v <- pids :: pids[v].Held? ==> pids[v].worker in holder && holder[pids[v].worker] == v)
  }

  /** The live processes are the children and the workers, all different. */
  ghost predicate Owns(pids: map<nat, Child>, workers: seq<Worker>, owner: map<nat, Owner>, live: set<nat>) {
    && owner.Keys == live
    && (forall v <- pids :: pids[v].pid in owner && owner[pids[v].pid] == Started(v))
    && (forall w <- workers :: w.pid in owner && owner[w.pid] == Pooled(w))
    && (forall p <- owner :: owner[p].Started? ==> owner[p].vpid in pids && pids[owner[p].vpid].pid == p)
    && (forall p <- owner :: owner[p].Pooled? ==> owner[p].worker in workers && owner[p].worker.pid == p)
  }

  lemma ChildStarted(pids: map<nat, Child>, workers: seq<Worker>, owner: map<nat, Owner>, live: set<nat>, v: nat,
      c: Child)
    requires Owns(pids, workers, owner, live) && v !in pids && c.pid !in live
    ensures Owns(pids[v := c], workers, owner[c.pid := Started(v)], live + {c.pid})
  {
  }

  lemma ChildEnded(pids: map<nat, Child>, workers: seq<Worker>, owner: map<nat, Owner>, live: set<nat>, v: nat)
    requires Owns(pids, workers, owner, live) && v in pids
    ensures pids[v].pid in live && Owns(pids - {v}, workers, owner - {pids[v].pid}, live - {pids[v].pid})
  {
  }

  lemma WorkerJoined(pids: map<nat, Child>, workers: seq<Worker>, owner: map<nat, Owner>, live: set<nat>, w: Worker)
    requires Owns(pids, workers, owner, live) && w.pid !in live
    ensures Owns(pids, workers + [w], owner[w.pid := Pooled(w)], live + {w.pid})
  {
  }

  lemma WorkerLeft(pids: map<nat, Child>, workers: seq<Worker>, owner: map<nat, Owner>, live: set<nat>, w: Worker)
    requires Owns(pids, workers, owner, live) && w in workers && NoDup(workers)
    ensures w.pid in live && Owns(pids, Without(workers, w), owner - {w.pid}, live - {w.pid})
  {
    WithoutOne(workers, w);
    hide Without;
    forall u <- Without(workers, w) ensures u.pid != w.pid {
      assert u in workers && u != w;
      assert u.pid in owner && owner[u.pid] == Pooled(u);
    }
  }

  lemma Lending(pids: map<nat, Child>, workers: seq<Worker>, holder: map<Worker, nat>, v: nat, pid: nat, w: Worker)
    requires Loans(pids, workers, holder) && v !in pids && w in workers && w !in holder
    ensures Loans(pids[v := Held(pid, w)], workers, holder[w := v])
  {
  }

  lemma NotLending(pids: map<nat, Child>, workers: seq<Worker>, holder: map<Worker, nat>, v: nat, pid: nat)
    requires Loans(pids, workers, holder) && v !in pids
    ensures Loans(pids[v := Plain(pid)], workers, holder)
  {
  }

  /** What the child held, if anything, is held by nobody. */
  lemma GivenBack(pids: map<nat, Child>, workers: seq<Worker>, holder: map<Worker, nat>, v: nat)
    requires Loans(pids, workers, holder) && v in pids
    ensures pids[v].Held? ==> pids[v].worker in workers && pids[v].worker in holder
    ensures Loans(pids - {v}, workers, if pids[v].Held? then holder - {pids[v].worker} else holder)
  {
  }

  lemma LoansWithout(pids: map<nat, Child>, workers: seq<Worker>, holder: map<Worker, nat>, w: Worker)
    requires Loans(pids, workers, holder) && w !in holder
    ensures Loans(pids, Without(workers, w), holder)
  {
    WithoutOne(workers, w);
  }

  /** A child ends together with the worker it holds. */
  lemma BothEnded(pids: map<nat, Child>, workers: seq<Worker>, holder: map<Worker, nat>, owner: map<nat, Owner>,
      live: set<nat>,
    v: nat, w: Worker)
    requires Loans(pids, workers, holder) && Owns(pids, workers, owner, live) && v in pids && pids[v].Held?
      && pids[v].worker == w
    ensures pids[v].pid in live && w.pid in live - {pids[v].pid} && w in workers
    ensures Loans(pids - {v}, Without(workers, w), holder - {w})
    ensures Owns(pids - {v}, Without(workers, w), owner - {pids[v].pid} - {w.pid}, live - {pids[v].pid} - {w.pid})
    ensures forall u <- Without(workers, w) :: u in workers && u != w
  {
    GivenBack(pids, workers, holder, v);
    ChildEnded(pids, workers, owner, live, v);
    Distinct(pids, workers, holder);
    WithoutOne(workers, w);
    hide Owns, Loans, Without;
    WorkerLeft(pids - {v}, workers, owner - {pids[v].pid}, live - {pids[v].pid}, w);
    LoansWithout(pids - {v}, workers, holder - {w}, w);
  }

  lemma Distinct(pids: map<nat, Child>, workers: seq<Worker>, holder: map<Worker, nat>)
    requires Loans(pids, workers, holder)
    ensures NoDup(workers)
  {
  }

  class Pool {
    const os: Processes
    var pids: map<nat, Child>
    var workers: seq<Worker>
    ghost var holder: map<Worker, nat>
    ghost var owner: map<nat, Owner>
    ghost var mine: set<nat>

    constructor ()
      ensures Valid() && pids == map[] && workers == [] && fresh(os)
    {
      os := new Processes();
      pids, workers, holder, owner, mine := map[], [], map[], map[], {};
    }

    /** The busy workers are those held by a child; none has done too much. */
    ghost predicate Tidy()
      reads this, workers
    {
      forall w <- workers :: w.numDone < MOST && (w.busy <==> w in holder)
    }

    /** The processes that are known are alive, and all of them are children or workers. */
    ghost predicate Kept()
      reads this, os
    {
      os.Valid() && Loans(pids, workers, holder) && Owns(pids, workers, owner, mine) && mine <= os.live
    }

    /** Nothing else is alive. */
    ghost predicate Valid()
      reads this, os, workers
    {
      Kept() && Tidy() && mine == os.live
    }

    ghost predicate Holds(v: nat, w: Worker)
      reads this
    {
      v in pids && pids[v] == Held(pids[v].pid, w)
    }

    /** A pooled worker is busy exactly when a child that has not been killed holds it, and then only one does. */
    lemma BusyIffHeld(w: Worker)
      requires Valid() && w in workers
      ensures w.busy <==> exists v :: Holds(v, w)
      ensures forall u, v :: Holds(u, w) && Holds(v, w) ==> u == v
    {
      if w.busy { assert Holds(holder[w], w); }
    }

    /** It is idle, has these limits, and no later one is such. */
    ghost predicate LastFit(n: nat, w: Worker, limits: Limits)
      requires n <= |workers|
      reads this, workers
    {
      exists i ::
        0 <= i < n && workers[i] == w && Fits(w, limits) && forall j :: i < j < n ==> !Fits(workers[j], limits)
    }

    /** The worker for a program: the last idle one with these limits. */
    method FindIdle(limits: Limits) returns (found: Option<Worker>)
      ensures found.Some? ==> LastFit(|workers|, found.value, limits)
      ensures found.None? ==> forall w <- workers :: !Fits(w, limits)
    {
      found := None;
      for i := 0 to |workers|
        invariant found.Some? ==> LastFit(i, found.value, limits)
        invariant found.None? ==> forall w <- workers[..i] :: !Fits(w, limits)
      {
        if Fits(workers[i], limits) { found := Some(workers[i]); }
      }
    }

    predicate Fits(w: Worker, limits: Limits)
      reads w
    {
      !w.busy && w.limits == limits
    }

    /** A new worker joins the pool. */
    method Enlarge(limits: Limits) returns (w: Worker)
      requires Valid()
      modifies this, os
      ensures Valid() && fresh(w) && w.limits == limits && !w.busy && w.numDone == 0
      ensures workers == old(workers) + [w] && pids == old(pids) && holder == old(holder)
      ensures os.forked == old(os.forked) + [w.pid] && os.killed == old(os.killed)
    {
      hide Owns;
      var pid := os.Fork();
      w := new Worker(pid, limits);
      WorkerJoined(pids, workers, owner, mine, w);
      workers := workers + [w];
      owner, mine := owner[pid := Pooled(w)], mine + {pid};
    }

    /** A child that runs its program itself. */
    method StartPlain(vpid: nat)
      requires Valid() && vpid !in pids
      modifies this, os
      ensures Valid() && workers == old(workers) && os.killed == old(os.killed)
      ensures exists pid: nat :: os.forked == old(os.forked) + [pid] && pids == old(pids)[vpid := Plain(pid)]
    {
      hide Owns, Loans;
      var pid := os.Fork();
      ChildStarted(pids, workers, owner, mine, vpid, Plain(pid));
      NotLending(pids, workers, holder, vpid, pid);
      pids, owner, mine := pids[vpid := Plain(pid)], owner[pid := Started(vpid)], mine + {pid};
    }

    /** A child that passes its program to a worker, which it holds from now on. */
    method StartHeld(vpid: nat, w: Worker)
      requires Valid() && vpid !in pids && w in workers && !w.busy
      modifies this, os, w
      ensures Valid() && workers == old(workers) && os.killed == old(os.killed)
      ensures w.busy && w.numDone == old(w.numDone)
      ensures exists pid: nat :: os.forked == old(os.forked) + [pid] && pids == old(pids)[vpid := Held(pid, w)]
    {
      hide Owns, Loans;
      w.busy := true;
      var pid := os.Fork();
      ChildStarted(pids, workers, owner, mine, vpid, Held(pid, w));
      Lending(pids, workers, holder, vpid, pid, w);
      pids, holder := pids[vpid := Held(pid, w)], holder[w := vpid];
      owner, mine := owner[pid := Started(vpid)], mine + {pid};
    }

    /** A command to start a program. */
    method Spawn(vpid: nat, persistent: bool, limits: Limits)
      requires Valid() && vpid !in pids
      modifies this, os, workers
      ensures Valid() && os.killed == old(os.killed)
      ensures pids.Keys == old(pids.Keys) + {vpid} && forall v <- old(pids) :: pids[v] == old(pids[v])
      ensures !persistent ==> pids[vpid].Plain? && workers == old(workers)
      ensures persistent ==> pids[vpid].Held? && pids[vpid].worker.limits == limits
      ensures persistent ==> var w := pids[vpid].worker;
        if exists u <- old(workers) ::
          old(Fits(u, limits)) then workers == old(workers) && old(LastFit(|workers|, w, limits))
        else workers == old(workers) + [w] && fresh(w) && w.numDone == 0
      ensures forall w <- old(workers) :: w.numDone == old(w.numDone)
      ensures forall w <- workers :: w in old(workers) || fresh(w)
    {
      hide Loans, Owns;
      if persistent {
        var found := FindIdle(limits);
        var w;
        if found.Some? {
          w := found.value;
        } else {
          w := Enlarge(limits);
        }
        StartHeld(vpid, w);
      } else {
        StartPlain(vpid);
      }
    }

    /** The child is no longer known, and is killed. */
    method DropPlain(vpid: nat)
      requires Kept() && vpid in pids && pids[vpid].Plain?
      modifies this, os
      ensures Kept() && os.live - mine == old(os.live - mine) && (old(Tidy()) ==> Tidy())
      ensures pids == old(pids) - {vpid} && workers == old(workers)
      ensures os.forked == old(os.forked) && os.killed == old(os.killed) + [old(pids)[vpid].pid]
    {
      hide Owns, Loans;
      ChildEnded(pids, workers, owner, mine, vpid);
      GivenBack(pids, workers, holder, vpid);
      var pid := pids[vpid].pid;
      pids, owner, mine := pids - {vpid}, owner - {pid}, mine - {pid};
      os.KillPid(pid);
    }

    /** The child is killed, and its worker is idle again. */
    method DropAndKeep(vpid: nat)
      requires Valid() && vpid in pids && pids[vpid].Held? && pids[vpid].worker.numDone + 1 < MOST
      modifies this, os, pids[vpid].worker
      ensures Valid() && pids == old(pids) - {vpid} && workers == old(workers)
      ensures var w := old(pids)[vpid].worker; !w.busy && w.numDone == old(pids[vpid].worker.numDone) + 1
      ensures os.forked == old(os.forked) && os.killed == old(os.killed) + [old(pids)[vpid].pid]
    {
      hide Owns, Loans;
      ChildEnded(pids, workers, owner, mine, vpid);
      GivenBack(pids, workers, holder, vpid);
      var Held(pid, w) := pids[vpid];
      w.numDone, w.busy := w.numDone + 1, false;
      pids, owner, holder, mine := pids - {vpid}, owner - {pid}, holder - {w}, mine - {pid};
      os.KillPid(pid);
    }

    /** The child is killed, and so is its worker, which leaves the pool. */
    method DropBoth(vpid: nat)
      requires Kept() && vpid in pids && pids[vpid].Held?
      modifies this, os
      ensures Kept() && os.live - mine == old(os.live - mine) && (old(Tidy()) ==> Tidy())
      ensures pids == old(pids) - {vpid} && workers == Without(old(workers), old(pids)[vpid].worker)
      ensures os.forked == old(os.forked)
      ensures os.killed == old(os.killed) + [old(pids)[vpid].pid] + [old(pids)[vpid].worker.pid]
      ensures forall w <- workers :: w in old(workers)
    {
      hide Owns, Loans, Without;
      var Held(pid, w) := pids[vpid];
      BothEnded(pids, workers, holder, owner, mine, vpid, w);
      pids, owner, holder := pids - {vpid}, owner - {pid} - {w.pid}, holder - {w};
      mine := mine - {pid} - {w.pid};
      os.KillPid(pid);
      os.KillPid(w.pid);
      workers := Without(workers, w);
    }

    /** The worker is still good after what was heard from the child it was lent to. */
    predicate StaysGood(w: Worker, heard: Signal)
      reads w
    {
      heard.One? && w.numDone + 1 < MOST
    }

    /** A command to end a program. */
    method Kill(vpid: nat, heard: Signal)
      requires Valid()
      modifies this, os, workers
      ensures Valid() && pids == old(pids) - {vpid} && os.forked == old(os.forked)
      ensures vpid !in old(pids) ==> workers == old(workers) && os.killed == old(os.killed)
      ensures vpid in old(pids) && old(pids)[vpid].Plain? ==>
        workers == old(workers) && os.killed == old(os.killed) + [old(pids)[vpid].pid]
      ensures vpid in old(pids) && old(pids)[vpid].Held? ==>
        var Held(pid, w) := old(pids)[vpid];
        if old(StaysGood(pids[vpid].worker, heard)) then
          workers == old(workers) && !w.busy && w.numDone == old(pids[vpid].worker.numDone) + 1
            && os.killed == old(os.killed) + [pid]
        else workers == Without(old(workers), w) && os.killed == old(os.killed) + [pid] + [w.pid]
      ensures forall w <- workers :: w in old(workers)
    {
      hide Owns, Loans, Without;
      if vpid in pids {
        assert os.live - mine == {};
        match pids[vpid] {
          case Plain(_) => DropPlain(vpid);
          case Held(_, w) =>
            GivenBack(pids, workers, holder, vpid);
            if heard.One? && w.numDone + 1 < MOST { DropAndKeep(vpid); } else { DropBoth(vpid); }
        }
        NothingElse(os.live, mine);
      } else {
        assert pids - {vpid} == pids;
      }
    }

    /** A command to start a program, when a step between a fork and its registration may raise. */
    method TrySpawn(vpid: nat, persistent: bool, limits: Limits, fault: Fault) returns (raised: bool)
      requires Valid() && vpid !in pids
      modifies this, os, workers
      ensures !raised ==> Valid() && pids.Keys == old(pids.Keys) + {vpid}
      ensures raised ==> Kept() && |os.live - mine| == 1 && pids == old(pids)
      ensures (fault.Fine? ==> !raised) && (fault.AfterChild? ==> raised)
      ensures forall w <- workers :: w in old(workers) || fresh(w)
    {
      hide Owns, Loans;
      raised := !fault.Fine?;
      if fault.AfterChild? {
        RaiseLate(persistent, limits);
      } else if fault.AfterWorker? {
        raised := RaiseEarly(persistent, limits);
      }
      if !raised { Spawn(vpid, persistent, limits); }
    }

    /** A process is forked that nobody knows. */
    method Orphan()
      requires Kept() && mine == os.live
      modifies os
      ensures Kept() && |os.live - mine| == 1
    {
      hide Owns, Loans;
      var pid := os.Fork();
      assert os.live - mine == {pid};
    }

    /** Only a new worker can be lost before the child is forked. */
    method RaiseEarly(persistent: bool, limits: Limits) returns (raised: bool)
      requires Valid()
      modifies os
      ensures if raised then Kept() && |os.live - mine| == 1 else Valid()
    {
      hide Owns, Loans;
      raised := false;
      if persistent {
        var found := FindIdle(limits);
        if found.None? {
          Orphan();
          raised := true;
        }
      }
    }

    /** The child is lost; the worker it was to use is marked, and in the pool. */
    method RaiseLate(persistent: bool, limits: Limits)
      requires Valid()
      modifies this, os, workers
      ensures Kept() && |os.live - mine| == 1 && pids == old(pids)
      ensures forall w <- workers :: w in old(workers) || fresh(w)
    {
      hide Owns, Loans;
      if persistent {
        var found := FindIdle(limits);
        var w;
        if found.Some? {
          w := found.value;
        } else {
          w := Enlarge(limits);
        }
        w.busy := true;
      }
      Orphan();
    }

    /** One command. */
    method Handle(c: Command, heard: Signal, fault: Fault) returns (raised: bool)
      requires Valid() && !Ending(c) && (c.Spawn? ==> c.vpid !in pids)
      modifies this, os, workers
      ensures !raised ==> Valid() && pids.Keys == After(old(pids.Keys), c)
      ensures raised ==> Kept() && |os.live - mine| == 1 && pids == old(pids) && c.Spawn? && !fault.Fine?
      ensures c.Spawn? && fault.AfterChild? ==> raised
      ensures forall w <- workers :: w in old(workers) || fresh(w)
    {
      hide Owns, Loans, Tidy;
      raised := false;
      match c {
        case Spawn(vpid, persistent, limits) => raised := TrySpawn(vpid, persistent, limits, fault);
        case Kill(vpid) => Kill(vpid, heard);
      }
    }

    /** One turn of the loop over the commands. */
    method Turn(commands: seq<Command>, n: nat, heard: Signal, faults: nat -> Fault) returns (raised: bool)
      requires Valid() && n < |commands| && !Ending(commands[n]) && SpawnsOnce(commands)
      requires pids.Keys == Alive(commands[..n]) && Handled(commands, faults, n)
      modifies this, os, workers
      ensures !raised ==> Valid() && pids.Keys == Alive(commands[..n + 1]) && Handled(commands, faults, n + 1)
      ensures raised ==> Kept() && |os.live - mine| == 1 && pids == old(pids)
      ensures raised ==> commands[n].Spawn? && !faults(n).Fine?
      ensures forall w <- workers :: w in old(workers) || fresh(w)
    {
      hide Owns, Loans, Tidy, Alive, SpawnsOnce;
      AliveNext(commands, n);
      raised := Handle(commands[n], heard, faults(n));
    }

    /** The loop over the commands, up to the end of the pipe, the command that ends it, or an exception. */
    method Serve(commands: seq<Command>, hears: nat -> Signal, faults: nat -> Fault) returns (n: nat, raised: bool)
      requires Valid() && pids == map[] && SpawnsOnce(commands)
      modifies this, os, workers
      ensures Handled(commands, faults, n) && pids.Keys == Alive(commands[..n])
      ensures !raised ==> Valid() && (n < |commands| ==> Ending(commands[n]))
      ensures raised ==> Kept() && |os.live - mine| == 1 && n < |commands| && commands[n].Spawn? && !faults(n).Fine?
    {
      hide Owns, Loans, Tidy, Alive, SpawnsOnce, Handled;
      n := 0;
      raised := false;
      NothingHandled(commands, faults);
      while n < |commands| && !Ending(commands[n]) && !raised
        invariant n <= |commands| && pids.Keys == Alive(commands[..n]) && Handled(commands, faults, n)
        invariant !raised ==> Valid()
        invariant raised ==> Kept() && |os.live - mine| == 1 && n < |commands| && commands[n].Spawn? && !faults(n).Fine?
        invariant forall w <- workers :: w in old(workers) || fresh(w)
        decreases |commands| - n, !raised
      {
        forall i | 0 <= i < |workers| ensures workers[i] in old(workers) || fresh(workers[i]) {
          assert workers[i] in workers;
        }
        raised := Turn(commands, n, hears(n), faults);
        if !raised { n := n + 1; }
      }
    }

    /** A child that is still there is killed, after the worker it holds. */
    method Finish(vpid: nat)
      requires Kept() && vpid in pids
      modifies this, os
      ensures Kept() && os.live - mine == old(os.live - mine)
      ensures pids == old(pids) - {vpid} && forall w <- workers :: w in old(workers)
    {
      hide Loans, Owns, Tidy, Without;
      match pids[vpid]
      case Plain(_) => DropPlain(vpid);
      case Held(_, w) => DropBoth(vpid);
    }

    /** What is done at the end, however it is reached: the children and workers that are known are killed. */
    method Stop()
      requires Kept()
      modifies this, os
      ensures os.live == old(os.live - mine) && multiset(os.forked) == multiset(os.killed) + multiset(os.live)
    {
      hide Loans, Owns, Tidy;
      while pids != map[]
        invariant Kept() && os.live - mine == old(os.live - mine)
        decreases |pids|
      {
        var vpid :| vpid in pids;
        Smaller(pids, vpid);
        Finish(vpid);
      }
      while workers != []
        invariant Kept() && pids == map[] && os.live - mine == old(os.live - mine)
        decreases |workers|
      {
        Retire();
      }
      NobodyLeft(pids, workers, owner, mine);
      assert os.live - {} == os.live;
    }

    /** An idle worker is killed and leaves the pool. */
    method Retire()
      requires Kept() && pids == map[] && workers != []
      modifies this, os
      ensures Kept() && pids == map[] && workers == old(workers[1..]) && os.live - mine == old(os.live - mine)
    {
      hide Owns;
      var w := workers[0];
      NobodyHolds(pids, workers, holder);
      FirstLeft(pids, workers, holder, owner, mine);
      workers, owner, mine := workers[1..], owner - {w.pid}, mine - {w.pid};
      os.KillPid(w.pid);
    }
  }

  lemma NothingElse(a: set<nat>, b: set<nat>)
    requires b <= a && a - b == {}
    ensures a == b
  {
    assert forall x <- a :: x in b || x in a - b;
  }

  lemma Smaller(m: map<nat, Child>, v: nat)
    requires v in m
    ensures |m - {v}| < |m|
  {
    assert (m - {v}).Keys == m.Keys - {v};
  }

  lemma NobodyHolds(pids: map<nat, Child>, workers: seq<Worker>, holder: map<Worker, nat>)
    requires Loans(pids, workers, holder) && pids == map[]
    ensures holder == map[]
  {
    assert forall w :: w !in holder;
  }

  lemma FirstLeft(pids: map<nat, Child>, workers: seq<Worker>, holder: map<Worker, nat>, owner: map<nat, Owner>,
      live: set<nat>)
    requires Loans(pids, workers, holder) && Owns(pids, workers, owner, live) && workers != [] && workers[0] !in holder
    ensures workers[0].pid in live && Loans(pids, workers[1..], holder)
    ensures Owns(pids, workers[1..], owner - {workers[0].pid}, live - {workers[0].pid})
  {
    var w, rest := workers[0], workers[1..];
    assert workers == [w] + rest;
    forall u ensures u in rest <==> u in workers && u != w {
      if u in rest { var i :| 0 <= i < |rest| && rest[i] == u; assert workers[i + 1] == u; }
    }
    forall u <- rest ensures u.pid != w.pid { assert owner[u.pid] == Pooled(u); }
  }

  lemma NobodyLeft(pids: map<nat, Child>, workers: seq<Worker>, owner: map<nat, Owner>, live: set<nat>)
    requires Owns(pids, workers, owner, live) && pids == map[] && workers == []
    ensures live == {}
  {
    assert forall p <- owner :: owner[p].Started? || owner[p].Pooled?;
    assert forall p :: p !in owner;
  }

  // ---------- commands ----------

  predicate Ending(c: Command) { c.Exit? || c.Unknown? }

  /** The children that have been started and not killed. */
  function Alive(commands: seq<Command>): set<nat> {
    if commands == [] then {} else After(Alive(commands[..|commands| - 1]), commands[|commands| - 1])
  }

  function After(alive: set<nat>, c: Command): set<nat> {
    if c.Spawn? then alive + {c.vpid} else if c.Kill? then alive - {c.vpid} else alive
  }

  /** No vpid is used for two programs. */
  ghost predicate SpawnsOnce(commands: seq<Command>) {
    forall i, j ::
      0 <= i < j < |commands| && commands[i].Spawn? && commands[j].Spawn? ==> commands[i].vpid != commands[j].vpid
  }

  lemma {:induction false} AliveSpawned(commands: seq<Command>, v: nat)
    ensures v in Alive(commands) ==> exists i :: 0 <= i < |commands| && commands[i].Spawn? && commands[i].vpid == v
  {
    if commands != [] {
      var before := commands[..|commands| - 1];
      AliveSpawned(before, v);
      if v in Alive(before) {
        var i :| 0 <= i < |before| && before[i].Spawn? && before[i].vpid == v;
        assert commands[i] == before[i];
      }
    }
  }

  /** None of the first n commands ends the loop, and none lost a child. */
  ghost predicate Handled(commands: seq<Command>, faults: nat -> Fault, n: nat) {
    && n <= |commands|
    && forall k: nat {:trigger commands[k]} ::
      k < n ==> !Ending(commands[k]) && (commands[k].Spawn? ==> !faults(k).AfterChild?)
  }

  lemma NothingHandled(commands: seq<Command>, faults: nat -> Fault)
    ensures Handled(commands, faults, 0) && Alive(commands[..0]) == {}
  {
  }

  lemma AliveNext(commands: seq<Command>, n: nat)
    requires n < |commands| && SpawnsOnce(commands)
    ensures commands[..n + 1] == commands[..n] + [commands[n]]
    ensures Alive(commands[..n + 1]) == After(Alive(commands[..n]), commands[n])
    ensures commands[n].Spawn? ==> commands[n].vpid !in Alive(commands[..n])
  {
    assert commands[..n + 1][..n] == commands[..n];
    if commands[n].Spawn? { AliveSpawned(commands[..n], commands[n].vpid); }
  }

  /**
   * The whole of `_run`: whatever the commands and however it ends, every child and every worker has
   * then been killed, each once, but for a process whose registration an exception prevented.
   */
  method Run(commands: seq<Command>, hears: nat -> Signal, faults: nat -> Fault)
      returns (os: Processes, n: nat, raised: bool)
    requires SpawnsOnce(commands)
    ensures multiset(os.forked) == multiset(os.killed) + multiset(os.live)
    ensures if raised then |os.live| == 1 else os.live == {}
    ensures raised ==> n < |commands| && commands[n].Spawn? && !faults(n).Fine?
    ensures Handled(commands, faults, n) && (!raised && n < |commands| ==> Ending(commands[n]))
  {
    var pool := new Pool();
    n, raised := pool.Serve(commands, hears, faults);
    assert !raised ==> pool.os.live - pool.mine == {};
    pool.Stop();
    os := pool.os;
  }

  // ---------- the callers' side ----------

  /** What the other process writes into the pipe. Each method below is one critical section, or several. */
  class ForkServer {
    var nextVpid: nat
    var pipe: seq<Command>

    constructor ()
      ensures Valid() && pipe == [] && nextVpid == 1
    {
      nextVpid, pipe := 1, [];
    }

    /** No vpid has been sent twice, and the next one has not been sent. */
    ghost predicate Valid()
      reads this
    {
      SpawnsOnce(pipe) && forall c <- pipe :: c.Spawn? ==> c.vpid < nextVpid
    }

    method SendSpawn(persistent: bool, limits: Limits) returns (vpid: nat)
      requires Valid()
      modifies this
      ensures Valid() && vpid == old(nextVpid) && nextVpid == vpid + 1
      ensures pipe == old(pipe) + [Command.Spawn(vpid, persistent, limits)] && Alive(pipe) == old(Alive(pipe)) + {vpid}
      ensures vpid !in old(Alive(pipe))
    {
      vpid := nextVpid;
      AliveSpawned(pipe, vpid);
      AliveAfter(pipe, Command.Spawn(vpid, persistent, limits));
      nextVpid := nextVpid + 1;
      pipe := pipe + [Command.Spawn(vpid, persistent, limits)];
    }

    method SendKill(vpid: nat)
      requires Valid()
      modifies this
      ensures Valid() && nextVpid == old(nextVpid)
      ensures pipe == old(pipe) + [Command.Kill(vpid)] && Alive(pipe) == old(Alive(pipe)) - {vpid}
    {
      AliveAfter(pipe, Command.Kill(vpid));
      pipe := pipe + [Command.Kill(vpid)];
    }

    /**
     * `spawn`: what it returns is the first attempt whose canary comes, and then it is the one
     * more child that has been started and not killed; if no canary comes there is none.
     */
    method Spawn(persistent: bool, limits: Limits, retries: int, chirps: nat -> bool) returns (vpid: Option<nat>)
      requires Valid()
      modifies this
      ensures Valid()
      ensures vpid.Some? ==>
        && old(nextVpid) <= vpid.value < nextVpid && vpid.value - old(nextVpid) < Tries(retries)
        && chirps(vpid.value - old(nextVpid)) && forall k :: 0 <= k < vpid.value - old(nextVpid) ==> !chirps(k)
      ensures vpid.None? ==> forall k :: 0 <= k < Tries(retries) ==> !chirps(k)
      ensures Alive(pipe) == old(Alive(pipe)) + if vpid.Some? then {vpid.value} else {}
      ensures old(pipe) <= pipe
    {
      hide Alive, SpawnsOnce;
      for retry := 0 to Tries(retries)
        invariant Valid() && nextVpid == old(nextVpid) + retry && old(pipe) <= pipe
        invariant Alive(pipe) == old(Alive(pipe))
        invariant forall k :: 0 <= k < retry ==> !chirps(k)
      {
        var v := SendSpawn(persistent, limits);
        if chirps(retry) { return Some(v); }
        SendKill(v);
      }
      vpid := None;
    }
  }

  function Tries(retries: int): nat { if retries + 1 > 1 then retries + 1 else 1 }

  lemma AliveAfter(commands: seq<Command>, c: Command)
    ensures Alive(commands + [c]) == After(Alive(commands), c)
  {
    assert (commands + [c])[..|commands|] == commands;
  }
}
