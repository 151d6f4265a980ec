// The host-memory prefix cache of utils/cache.py: a trie of token pages whose nodes
// own one buffer of cells each, with an LRU clock, nodes frozen while their buffer
// is being filled, eviction, and a pool of free buffers. Nodes and buffers are
// shared by reference in the program; here a node is named by its node_id and a
// buffer by a number, and the two maps `node` and `host` are the memory they live in.
module HostCaches {
  import opened Basics
  import opened Seqs
  import opened Kv

  type NodeId = nat
  type BufId = nat


  datatype Node = Node(toks: seq<Token>, cache: BufId, clock: nat, next: seq<NodeId>)

  /** DynCacheLane: pages [0, readyCount) are copied in, the others copied out. */
  datatype DynCacheLane = DynCacheLane(gpuBlocks: seq<nat>, cpuBlocks: seq<BufId>, readyCount: nat)

  /** The local variables of prepare_lane's loop: buffers so far, ready pages, the mode, the last node. */
  datatype Cursor = Cursor(caches: seq<BufId>, ready: nat, inserting: bool, p: Option<NodeId>)

  // ---------- the trie as a value ----------

  /** What is known of each node besides its record: its parent and the tokens spelled from the root. */
  datatype Place = Place(parent: Option<NodeId>, path: seq<Token>)

  function ListOf(roots: seq<NodeId>, node: map<NodeId, Node>, p: Option<NodeId>): seq<NodeId> {
    if p.None? then roots else if p.value in node then node[p.value].next else []
  }

  /** A node hangs in the list of its parent and spells its parent's tokens and its own. */
  ghost predicate Linked(roots: seq<NodeId>, node: map<NodeId, Node>, place: map<NodeId, Place>, pl: nat, n: NodeId)
    requires n in node && place.Keys == node.Keys
  {
    && |node[n].toks| == pl
    && n in ListOf(roots, node, place[n].parent)
    && match place[n].parent
       case None => place[n].path == node[n].toks
       case Some(p) => p in node && place[n].path == place[p].path + node[n].toks
  }

  /** The list of p has no repetition and holds children of p only. */
  ghost predicate Listed(roots: seq<NodeId>, node: map<NodeId, Node>, place: map<NodeId, Place>, p: Option<NodeId>)
    requires place.Keys == node.Keys
  {
    && NoDup(ListOf(roots, node, p))
    && (forall n <- ListOf(roots, node, p) :: n in node && place[n].parent == p)
  }

  ghost predicate TrieOk(roots: seq<NodeId>, node: map<NodeId, Node>, place: map<NodeId, Place>, pl: nat) {
    && place.Keys == node.Keys
    && (forall n: NodeId {:trigger Linked(roots, node, place, pl, n)} ::
        n in node ==> Linked(roots, node, place, pl, n))
    && (forall p: Option<NodeId> {:trigger Listed(roots, node, place, p)} :: Listed(roots, node, place, p))
  }

  ghost predicate Holds(node: map<NodeId, Node>, pool: seq<BufId>, host: map<BufId, seq<Cell>>, n: NodeId)
    requires n in node
  {
    node[n].cache in host && node[n].cache !in pool
  }

  ghost predicate Apart(node: map<NodeId, Node>, n: NodeId, k: NodeId)
    requires n in node && k in node
  {
    node[n].cache == node[k].cache ==> n == k
  }

  /** No two nodes or free buffers alias. */
  ghost predicate BufsOk(node: map<NodeId, Node>, pool: seq<BufId>, host: map<BufId, seq<Cell>>, pl: nat) {
    && (forall n: NodeId {:trigger Holds(node, pool, host, n)} :: n in node ==> Holds(node, pool, host, n))
    && (forall n: NodeId, k: NodeId {:trigger Apart(node, n, k)} :: n in node && k in node ==> Apart(node, n, k))
    && NoDup(pool) && (forall b <- pool :: b in host)
    && (forall b <- host :: |host[b]| == pl)
  }

  /** A node is no younger than the clock, and no younger than its parent. */
  ghost predicate Aged(node: map<NodeId, Node>, place: map<NodeId, Place>, clock: nat, n: NodeId)
    requires n in node && place.Keys == node.Keys
  {
    && node[n].clock <= clock
    && (place[n].parent.Some? && place[n].parent.value in node ==> node[n].clock <= node[place[n].parent.value].clock)
  }

  /** Clocks never increase with depth. */
  ghost predicate ClocksOk(node: map<NodeId, Node>, place: map<NodeId, Place>, clock: nat)
    requires place.Keys == node.Keys
  {
    forall n: NodeId {:trigger Aged(node, place, clock, n)} :: n in node ==> Aged(node, place, clock, n)
  }

  /** The buffer of n holds what recomputing its path would give. */
  ghost predicate Filled(m: Model, node: map<NodeId, Node>, place: map<NodeId, Place>, host: map<BufId, seq<Cell>>,
      pl: nat, n: NodeId)
    requires n in node && n in place
  {
    && node[n].cache in host && pl <= |place[n].path|
    && host[node[n].cache] == LastPage(m, place[n].path, pl)
  }

  ghost predicate ContentsOk(m: Model, node: map<NodeId, Node>, place: map<NodeId, Place>, host: map<BufId, seq<Cell>>,
      pl: nat, frozen: set<NodeId>)
    requires place.Keys == node.Keys
  {
    forall n: NodeId {:trigger Filled(m, node, place, host, pl, n)} ::
      n in node && n !in frozen ==> Filled(m, node, place, host, pl, n)
  }

  ghost predicate FrozenBelow(place: map<NodeId, Place>, frozen: set<NodeId>, n: NodeId)
    requires n in place
  {
    place[n].parent.Some? && place[n].parent.value in frozen ==> n in frozen
  }

  /** Everything below a frozen node is frozen. */
  ghost predicate FrozenOk(node: map<NodeId, Node>, place: map<NodeId, Place>, frozen: set<NodeId>)
    requires place.Keys == node.Keys
  {
    && frozen <= node.Keys
    && (forall n: NodeId {:trigger FrozenBelow(place, frozen, n)} :: n in node ==> FrozenBelow(place, frozen, n))
  }

  function ZeroPages(n: nat, pl: nat): (h: map<BufId, seq<Cell>>)
    ensures forall b: BufId :: b in h <==> b < n
    ensures forall b <- h :: |h[b]| == pl
  {
    if n == 0 then map[] else ZeroPages(n - 1, pl)[n - 1 := Zeros(pl)]
  }

  function WithChild(node: map<NodeId, Node>, p: Option<NodeId>, id: NodeId): map<NodeId, Node>
    requires p.Some? ==> p.value in node
  {
    if p.None? then node else node[p.value := node[p.value].(next := node[p.value].next + [id])]
  }

  function PathBelow(place: map<NodeId, Place>, p: Option<NodeId>, toks: seq<Token>): seq<Token>
    requires p.Some? ==> p.value in place
  {
    if p.None? then toks else place[p.value].path + toks
  }

  lemma InsertTrie(roots: seq<NodeId>, node: map<NodeId, Node>, place: map<NodeId, Place>, pl: nat,
      p: Option<NodeId>, id: NodeId, n: Node, roots': seq<NodeId>, node': map<NodeId, Node>, place': map<NodeId, Place>)
    requires TrieOk(roots, node, place, pl) && id !in node && |n.toks| == pl && n.next == []
    requires p.Some? ==> p.value in node
    requires roots' == if p.None? then roots + [id] else roots
    requires node' == WithChild(node, p, id)[id := n]
    requires place' == place[id := Place(p, PathBelow(place, p, n.toks))]
    ensures TrieOk(roots', node', place', pl)
  {
    assert place'.Keys == node'.Keys;
    forall k: NodeId | k in node' ensures Linked(roots', node', place', pl, k) {
      if k != id { assert Linked(roots, node, place, pl, k); }
    }
    forall q: Option<NodeId> ensures Listed(roots', node', place', q) {
      assert Listed(roots, node, place, q);
      InsertListed(roots, node, place, p, id, n, roots', node', place', q);
    }
  }

  /** Only the list of p has changed: it ends with the new node. */
  lemma InsertListed(roots: seq<NodeId>, node: map<NodeId, Node>, place: map<NodeId, Place>, p: Option<NodeId>,
      id: NodeId,
      n: Node, roots': seq<NodeId>, node': map<NodeId, Node>, place': map<NodeId, Place>, q: Option<NodeId>)
    requires place.Keys == node.Keys && place'.Keys == node'.Keys && Listed(roots, node, place, q) && id !in node
      && n.next == []
    requires p.Some? ==> p.value in node
    requires roots' == if p.None? then roots + [id] else roots
    requires node' == WithChild(node, p, id)[id := n]
    requires place' == place[id := place'[id]] && place'[id].parent == p
    ensures Listed(roots', node', place', q)
  {
    var was := ListOf(roots, node, q);
    assert ListOf(roots', node', q) == if q == p then was + [id] else if q == Some(id) then [] else was;
    assert id !in was;
  }

  /** Adding a fresh, childless, unfilled node to a trie keeps every part of the invariant. */
  lemma InsertRest(node: map<NodeId, Node>, place: map<NodeId, Place>, pool: seq<BufId>, host: map<BufId, seq<Cell>>,
      clock: nat, frozen: set<NodeId>, pl: nat, p: Option<NodeId>, id: NodeId, n: Node, path: seq<Token>,
      pool': seq<BufId>, host': map<BufId, seq<Cell>>)
    requires place.Keys == node.Keys && id !in node && (p.Some? ==> p.value in node)
    requires BufsOk(node, pool, host, pl) && ClocksOk(node, place, clock)
    requires FrozenOk(node, place, frozen)
    requires n.clock == clock && n.next == [] && (p.Some? ==> node[p.value].clock == clock)
    requires pool' <= pool && n.cache !in pool' && n.cache in host' && (n.cache in pool || n.cache !in host)
    requires host'.Keys == host.Keys + {n.cache} && |host'[n.cache]| == pl
    requires forall b <- host :: host'[b] == host[b]
    requires forall k <- node :: place[k].parent != Some(id)
    ensures var node' := WithChild(node, p, id)[id := n];
      var place' := place[id := Place(p, path)];
      && place'.Keys == node'.Keys
      && BufsOk(node', pool', host', pl) && ClocksOk(node', place', clock)
      && FrozenOk(node', place', frozen + {id})
  {
    var node' := WithChild(node, p, id)[id := n];
    var place' := place[id := Place(p, path)];
    assert place'.Keys == node'.Keys;
    forall k: NodeId | k in node' ensures Aged(node', place', clock, k) {
      if k != id { assert Aged(node, place, clock, k); }
    }
    forall k: NodeId | k in node' ensures FrozenBelow(place', frozen + {id}, k) {
      if k != id { assert FrozenBelow(place, frozen, k); }
    }
    InsertBufs(node, pool, host, pl, p, id, n, pool', host');
  }

  /** A fresh node is not filled, and the others stay so. */
  lemma InsertContents(m: Model, node: map<NodeId, Node>, place: map<NodeId, Place>, host: map<BufId, seq<Cell>>,
      unfilled: set<NodeId>, pl: nat, p: Option<NodeId>, id: NodeId, n: Node, path: seq<Token>,
        host': map<BufId, seq<Cell>>)
    requires place.Keys == node.Keys && id !in node && (p.Some? ==> p.value in node)
    requires ContentsOk(m, node, place, host, pl, unfilled)
    requires forall b <- host :: b in host' && host'[b] == host[b]
    ensures var node', place' := WithChild(node, p, id)[id := n], place[id := Place(p, path)];
      place'.Keys == node'.Keys && ContentsOk(m, node', place', host', pl, unfilled + {id})
  {
    var node', place' := WithChild(node, p, id)[id := n], place[id := Place(p, path)];
    assert place'.Keys == node'.Keys;
    forall k: NodeId | k in node' && k !in unfilled + {id} ensures Filled(m, node', place', host', pl, k) {
      assert Filled(m, node, place, host, pl, k);
    }
  }

  lemma WithChildKeeps(node: map<NodeId, Node>, p: Option<NodeId>, id: NodeId, n: Node)
    requires id !in node && (p.Some? ==> p.value in node)
    ensures var node' := WithChild(node, p, id)[id := n];
      && node'.Keys == node.Keys + {id} && |node'| == |node| + 1
      && node'[id] == n
      && forall k <- node :: node'[k].cache == node[k].cache && node'[k].clock == node[k].clock
  {
    assert |node.Keys + {id}| == |node.Keys| + 1;
    assert WithChild(node, p, id)[id := n].Keys == node.Keys + {id};
  }

  lemma NoOrphans(roots: seq<NodeId>, node: map<NodeId, Node>, place: map<NodeId, Place>, pl: nat, id: NodeId)
    requires TrieOk(roots, node, place, pl) && id !in node
    ensures forall k <- node :: place[k].parent != Some(id)
  {
    forall k | k in node ensures place[k].parent != Some(id) { assert Linked(roots, node, place, pl, k); }
  }

  lemma InsertBufs(node: map<NodeId, Node>, pool: seq<BufId>, host: map<BufId, seq<Cell>>, pl: nat,
      p: Option<NodeId>, id: NodeId, n: Node, pool': seq<BufId>, host': map<BufId, seq<Cell>>)
    requires BufsOk(node, pool, host, pl) && id !in node && (p.Some? ==> p.value in node)
    requires pool' <= pool && n.cache !in pool' && n.cache in host' && (n.cache in pool || n.cache !in host)
    requires host'.Keys == host.Keys + {n.cache} && |host'[n.cache]| == pl
    requires forall b <- host :: host'[b] == host[b]
    ensures BufsOk(WithChild(node, p, id)[id := n], pool', host', pl)
  {
    var node' := WithChild(node, p, id)[id := n];
    assert forall b <- pool' :: b in pool;
    forall k: NodeId | k in node' ensures Holds(node', pool', host', k) {
      if k != id { assert Holds(node, pool, host, k); }
    }
    forall k: NodeId, l: NodeId | k in node' && l in node' ensures Apart(node', k, l) {
      if k != id { assert Holds(node, pool, host, k); }
      if l != id { assert Holds(node, pool, host, l); }
      if k != id && l != id { assert Apart(node, k, l); }
    }
  }

  lemma TouchTrie(roots: seq<NodeId>, node: map<NodeId, Node>, place: map<NodeId, Place>, clock: nat, pl: nat,
      id: NodeId)
    requires TrieOk(roots, node, place, pl) && id in node
    ensures TrieOk(roots, node[id := node[id].(clock := clock)], place, pl)
  {
    var node' := node[id := node[id].(clock := clock)];
    assert node'.Keys == node.Keys;
    forall k: NodeId | k in node' ensures Linked(roots, node', place, pl, k) {
      assert Linked(roots, node, place, pl, k);
      assert ListOf(roots, node', place[k].parent) == ListOf(roots, node, place[k].parent);
    }
    forall q: Option<NodeId> ensures Listed(roots, node', place, q) {
      assert Listed(roots, node, place, q);
      assert ListOf(roots, node', q) == ListOf(roots, node, q);
    }
  }

  lemma TouchRest(node: map<NodeId, Node>, place: map<NodeId, Place>, pool: seq<BufId>,
      host: map<BufId, seq<Cell>>, clock: nat, frozen: set<NodeId>, pl: nat, id: NodeId)
    requires place.Keys == node.Keys && id in node
    requires BufsOk(node, pool, host, pl) && ClocksOk(node, place, clock)
    requires FrozenOk(node, place, frozen)
    requires place[id].parent.Some? && place[id].parent.value in node ==> node[place[id].parent.value].clock == clock
    ensures var node' := node[id := node[id].(clock := clock)];
      && node'.Keys == node.Keys
      && BufsOk(node', pool, host, pl) && ClocksOk(node', place, clock)
      && FrozenOk(node', place, frozen)
  {
    var node' := node[id := node[id].(clock := clock)];
    assert node'.Keys == node.Keys;
    forall k: NodeId | k in node' ensures Holds(node', pool, host, k) { assert Holds(node, pool, host, k); }
    forall k: NodeId, l: NodeId | k in node' && l in node' ensures Apart(node', k, l) { assert Apart(node, k, l); }
    forall k: NodeId | k in node' ensures Aged(node', place, clock, k) { assert Aged(node, place, clock, k); }
  }

  lemma TouchContents(m: Model, node: map<NodeId, Node>, place: map<NodeId, Place>, host: map<BufId, seq<Cell>>,
      clock: nat, unfilled: set<NodeId>, pl: nat, id: NodeId)
    requires place.Keys == node.Keys && id in node && ContentsOk(m, node, place, host, pl, unfilled)
    ensures var node' := node[id := node[id].(clock := clock)];
      node'.Keys == node.Keys && ContentsOk(m, node', place, host, pl, unfilled)
  {
    var node' := node[id := node[id].(clock := clock)];
    assert node'.Keys == node.Keys;
    forall k: NodeId | k in node' && k !in unfilled ensures Filled(m, node', place, host, pl, k) {
      assert Filled(m, node, place, host, pl, k);
    }
  }

  /** The whole invariant but for the contents of the buffers, on values. */
  ghost predicate CacheOk(roots: seq<NodeId>, node: map<NodeId, Node>, place: map<NodeId, Place>, pool: seq<BufId>,
      host: map<BufId, seq<Cell>>, clock: nat, frozen: set<NodeId>, pl: nat, nextId: nat, nextBuf: nat)
  {
    && TrieOk(roots, node, place, pl)
    && BufsOk(node, pool, host, pl)
    && ClocksOk(node, place, clock)
    && FrozenOk(node, place, frozen)
    && (forall n <- node :: n < nextId) && (forall b <- host :: b < nextBuf)
  }

  lemma InsertOk(roots: seq<NodeId>, node: map<NodeId, Node>, place: map<NodeId, Place>, pool: seq<BufId>,
      host: map<BufId, seq<Cell>>, clock: nat, frozen: set<NodeId>, pl: nat, nextId: nat, nextBuf: nat,
      p: Option<NodeId>, n: Node, pool': seq<BufId>, host': map<BufId, seq<Cell>>, nextBuf': nat)
    requires CacheOk(roots, node, place, pool, host, clock, frozen, pl, nextId, nextBuf)
    requires |n.toks| == pl && n.clock == clock && n.next == []
      && (p.Some? ==> p.value in node && node[p.value].clock == clock)
    requires pool' <= pool && n.cache !in pool' && n.cache in host' && (n.cache in pool || n.cache !in host)
    requires host'.Keys == host.Keys + {n.cache} && |host'[n.cache]| == pl && (forall b <- host' :: b < nextBuf')
    requires forall b <- host :: host'[b] == host[b]
    ensures var node' := WithChild(node, p, nextId)[nextId := n];
      CacheOk(if p.None? then roots + [nextId] else roots, node',
        place[nextId := Place(p, PathBelow(place, p, n.toks))],
        pool', host', clock, frozen + {nextId}, pl, nextId + 1, nextBuf')
  {
    NoOrphans(roots, node, place, pl, nextId);
    WithChildKeeps(node, p, nextId, n);
    InsertRest(node, place, pool, host, clock, frozen, pl, p, nextId, n, PathBelow(place, p, n.toks), pool', host');
    InsertTrie(roots, node, place, pl, p, nextId, n, if p.None? then roots + [nextId] else roots,
      WithChild(node, p, nextId)[nextId := n], place[nextId := Place(p, PathBelow(place, p, n.toks))]);
  }

  /** Existing nodes keep their buffer and place, buffers their cells; only new nodes become frozen. */
  ghost predicate Grown(node: map<NodeId, Node>, place: map<NodeId, Place>, frozen: set<NodeId>,
      host: map<BufId, seq<Cell>>,
      node': map<NodeId, Node>, place': map<NodeId, Place>, frozen': set<NodeId>, host': map<BufId, seq<Cell>>)
  {
    && place.Keys == node.Keys && place'.Keys == node'.Keys
    && (forall n: NodeId {:trigger Same(node, place, frozen, node', place', frozen', n)} ::
        n in node ==> Same(node, place, frozen, node', place', frozen', n))
    && (forall b: BufId {:trigger b in host} {:trigger host'[b]} :: b in host ==> b in host' && host'[b] == host[b])
  }

  ghost predicate Same(node: map<NodeId, Node>, place: map<NodeId, Place>, frozen: set<NodeId>,
      node': map<NodeId, Node>, place': map<NodeId, Place>, frozen': set<NodeId>, n: NodeId)
    requires n in node && place.Keys == node.Keys && place'.Keys == node'.Keys
  {
    n in node' && node'[n].cache == node[n].cache && place'[n] == place[n] && (n in frozen' <==> n in frozen)
  }

  lemma NextSlice(tokens: seq<Token>, n: nat, pl: nat)
    requires (n + 1) * pl <= |tokens|
    ensures n * pl <= |tokens| && (n + 1) * pl == n * pl + pl
    ensures tokens[n * pl..][..pl] == tokens[n * pl..(n + 1) * pl]
    ensures tokens[n * pl..][pl..] == tokens[(n + 1) * pl..]
  {
  }

  ghost function Added(ids: seq<NodeId>, ready: nat): set<NodeId>
    requires ready <= |ids|
  {
    set n | n in ids[ready..]
  }

  lemma AddedNext(ids: seq<NodeId>, ready: nat, q: NodeId, hit: bool)
    requires ready <= |ids| && (hit ==> ready == |ids|)
    ensures Added(ids + [q], if hit then ready + 1 else ready) == Added(ids, ready) + if hit then {} else {q}
  {
    if !hit { assert (ids + [q])[ready..] == ids[ready..] + [q]; }
  }

  lemma GrownSelf(node: map<NodeId, Node>, place: map<NodeId, Place>, frozen: set<NodeId>, host: map<BufId, seq<Cell>>)
    requires place.Keys == node.Keys
    ensures Grown(node, place, frozen, host, node, place, frozen, host)
  {
  }

  lemma GrownTrans(n0: map<NodeId, Node>, p0: map<NodeId, Place>, f0: set<NodeId>, h0: map<BufId, seq<Cell>>,
      n1: map<NodeId, Node>, p1: map<NodeId, Place>, f1: set<NodeId>, h1: map<BufId, seq<Cell>>,
      n2: map<NodeId, Node>, p2: map<NodeId, Place>, f2: set<NodeId>, h2: map<BufId, seq<Cell>>)
    requires Grown(n0, p0, f0, h0, n1, p1, f1, h1) && Grown(n1, p1, f1, h1, n2, p2, f2, h2)
    ensures Grown(n0, p0, f0, h0, n2, p2, f2, h2)
  {
    forall n: NodeId | n in n0 ensures Same(n0, p0, f0, n2, p2, f2, n) {
      assert Same(n0, p0, f0, n1, p1, f1, n) && Same(n1, p1, f1, n2, p2, f2, n);
    }
  }

  /** The pages of a lane follow a path of the trie; the first readyCount are not frozen. */
  ghost predicate LaneOk(node: map<NodeId, Node>, place: map<NodeId, Place>, frozen: set<NodeId>, pl: nat,
      r: DynCacheLane, ids: seq<NodeId>, tokens: seq<Token>)
  {
    && place.Keys == node.Keys
    && |r.cpuBlocks| == |ids| && r.readyCount <= |ids| && |ids| * pl <= |tokens|
    && (forall j: nat {:trigger OnPath(node, place, frozen, pl, r, ids, tokens, j)} ::
        j < |ids| ==> OnPath(node, place, frozen, pl, r, ids, tokens, j))
  }

  ghost predicate OnPath(node: map<NodeId, Node>, place: map<NodeId, Place>, frozen: set<NodeId>, pl: nat,
      r: DynCacheLane, ids: seq<NodeId>, tokens: seq<Token>, j: nat)
    requires place.Keys == node.Keys && |r.cpuBlocks| == |ids| && j < |ids|
  {
    && ids[j] in node && node[ids[j]].cache == r.cpuBlocks[j]
    && (j + 1) * pl <= |tokens| && place[ids[j]].path == tokens[..(j + 1) * pl]
    && (j < r.readyCount <==> ids[j] !in frozen)
  }

  lemma KeepsLane(n0: map<NodeId, Node>, p0: map<NodeId, Place>, f0: set<NodeId>, h0: map<BufId, seq<Cell>>,
      n1: map<NodeId, Node>, p1: map<NodeId, Place>, f1: set<NodeId>, h1: map<BufId, seq<Cell>>,
      pl: nat, r: DynCacheLane, ids: seq<NodeId>, tokens: seq<Token>)
    requires LaneOk(n0, p0, f0, pl, r, ids, tokens) && Grown(n0, p0, f0, h0, n1, p1, f1, h1)
    ensures LaneOk(n1, p1, f1, pl, r, ids, tokens)
  {
    forall j: nat | j < |ids| ensures OnPath(n1, p1, f1, pl, r, ids, tokens, j) {
      assert OnPath(n0, p0, f0, pl, r, ids, tokens, j);
      assert Same(n0, p0, f0, n1, p1, f1, ids[j]);
    }
  }

  lemma Relabel(node: map<NodeId, Node>, place: map<NodeId, Place>, frozen: set<NodeId>, pl: nat,
      blocks: seq<nat>, caches: seq<BufId>, ready: nat, ids: seq<NodeId>, tokens: seq<Token>)
    requires LaneOk(node, place, frozen, pl, DynCacheLane([], caches, ready), ids, tokens)
    ensures LaneOk(node, place, frozen, pl, DynCacheLane(blocks, caches, ready), ids, tokens)
  {
    forall j: nat | j < |ids|
      ensures OnPath(node, place, frozen, pl, DynCacheLane(blocks, caches, ready), ids, tokens, j) {
      assert OnPath(node, place, frozen, pl, DynCacheLane([], caches, ready), ids, tokens, j);
    }
  }

  /** One more page on the path. */
  lemma GrowLane(node: map<NodeId, Node>, place: map<NodeId, Place>, frozen: set<NodeId>, pl: nat,
      blocks: seq<nat>, caches: seq<BufId>, ready: nat, ids: seq<NodeId>, tokens: seq<Token>, q: NodeId, hit: bool)
    requires LaneOk(node, place, frozen, pl, DynCacheLane(blocks, caches, ready), ids, tokens)
      && (|ids| + 1) * pl <= |tokens|
    requires q in node && place[q].path == tokens[..(|ids| + 1) * pl]
    requires hit ==> ready == |ids| && q !in frozen
    requires !hit ==> q in frozen
    ensures LaneOk(node, place, frozen, pl,
      DynCacheLane(blocks, caches + [node[q].cache], if hit then ready + 1 else ready), ids + [q], tokens)
  {
    var r, r' := DynCacheLane(blocks, caches, ready),
      DynCacheLane(blocks, caches + [node[q].cache], if hit then ready + 1 else ready);
    forall j: nat | j < |ids + [q]| ensures OnPath(node, place, frozen, pl, r', ids + [q], tokens, j) {
      if j < |ids| { assert OnPath(node, place, frozen, pl, r, ids, tokens, j); assert (ids + [q])[j] == ids[j]; }
    }
  }

  /** n is one of the nodes a lane of the batch has to fill. */
  ghost predicate Fresh(ids: seq<seq<NodeId>>, cls: seq<DynCacheLane>, n: NodeId)
    requires |ids| == |cls|
  {
    exists j: nat, k: nat {:trigger ids[j][k]} :: j < |ids| && cls[j].readyCount <= k < |ids[j]| && ids[j][k] == n
  }

  lemma FreshMore(f: set<NodeId>, f': set<NodeId>, ids: seq<seq<NodeId>>, cls: seq<DynCacheLane>, path: seq<NodeId>,
      r: DynCacheLane)
    requires |ids| == |cls| && (forall n <- f :: Fresh(ids, cls, n)) && r.readyCount <= |path|
      && f' == f + Added(path, r.readyCount)
    ensures forall n <- f' :: Fresh(ids + [path], cls + [r], n)
  {
    var ids', cls' := ids + [path], cls + [r];
    forall n | n in f' ensures Fresh(ids', cls', n) {
      if n in f {
        var j: nat, k: nat :| j < |ids| && cls[j].readyCount <= k < |ids[j]| && ids[j][k] == n;
        assert ids'[j][k] == n;
      } else {
        var k :| 0 <= k < |path[r.readyCount..]| && path[r.readyCount..][k] == n;
        assert ids'[|ids|][r.readyCount + k] == n;
      }
    }
  }

  lemma LandContents(m: Model, node: map<NodeId, Node>, place: map<NodeId, Place>, pool: seq<BufId>,
      host: map<BufId, seq<Cell>>,
      pl: nat, unfilled: set<NodeId>, n: NodeId, cells: seq<Cell>, right: bool)
    requires place.Keys == node.Keys && ContentsOk(m, node, place, host, pl, unfilled) && BufsOk(node, pool, host, pl)
    requires n in unfilled && n in node
    requires right ==> pl <= |place[n].path| && cells == LastPage(m, place[n].path, pl)
    ensures ContentsOk(m, node, place, host[node[n].cache := cells], pl, if right then unfilled - {n} else unfilled)
  {
    var host', rest := host[node[n].cache := cells], if right then unfilled - {n} else unfilled;
    forall k: NodeId | k in node && k !in rest ensures Filled(m, node, place, host', pl, k) {
      if k != n { assert Filled(m, node, place, host, pl, k) && Apart(node, k, n); }
    }
  }

  /** A page that can be copied in holds what recomputing the prompt up to it gives. */
  lemma ReadyPage(m: Model, node: map<NodeId, Node>, place: map<NodeId, Place>, frozen: set<NodeId>,
      host: map<BufId, seq<Cell>>,
      pool: seq<BufId>, pl: nat, unfilled: set<NodeId>, r: DynCacheLane, ids: seq<NodeId>, tokens: seq<Token>, k: nat)
    requires LaneOk(node, place, frozen, pl, r, ids, tokens) && ContentsOk(m, node, place, host, pl, unfilled)
      && k < r.readyCount
    requires BufsOk(node, pool, host, pl)
    ensures k < |r.cpuBlocks| && r.cpuBlocks[k] in host && |host[r.cpuBlocks[k]]| == pl
      && pl <= (k + 1) * pl <= |tokens|
    ensures unfilled == frozen ==> host[r.cpuBlocks[k]] == LastPage(m, tokens[..(k + 1) * pl], pl)
  {
    assert OnPath(node, place, frozen, pl, r, ids, tokens, k);
    assert Holds(node, pool, host, ids[k]);
    if unfilled == frozen { assert Filled(m, node, place, host, pl, ids[k]); }
  }

  class HostCache {
    ghost const m: Model
    const pageLen: nat
    const limit: nat
    const disabled: bool
    var nodes: seq<NodeId>
    var frozen: set<NodeId>
    // nodes whose buffer is not known to hold what it should
    ghost var unfilled: set<NodeId>
    var numNodes: nat
    var clock: nat
    var nextId: nat
    var freeCaches: seq<BufId>
    // memory
    var node: map<NodeId, Node>
    var host: map<BufId, seq<Cell>>
    var nextBuf: nat
    ghost var place: map<NodeId, Place>

    ghost predicate Valid()
      reads this
    {
      && pageLen > 0 && disabled == (limit == 0)
      && numNodes == |node|
      && CacheOk(nodes, node, place, freeCaches, host, clock, frozen, pageLen, nextId, nextBuf)
      && frozen <= unfilled <= node.Keys
      && ContentsOk(m, node, place, host, pageLen, unfilled)
    }

    constructor (ghost m: Model, pageLen: nat, limit: nat)
      requires pageLen > 0
      ensures Valid() && node == map[] && frozen == {} && unfilled == {}
      ensures this.m == m && this.pageLen == pageLen && this.limit == limit
      ensures |freeCaches| == limit
    {
      this.m, this.pageLen, this.limit := m, pageLen, limit;
      disabled := limit == 0;
      nodes, frozen, unfilled, numNodes, clock, nextId := [], {}, {}, 0, 0, 0;
      node, place := map[], map[];
      // preallocate
      freeCaches := seq(limit, i requires 0 <= i => i);
      host := ZeroPages(limit, pageLen);
      nextBuf := limit;
    }

    /** The inner search of prepare_lane: the first unfrozen child with these tokens. */
    method FindChild(cur: seq<NodeId>, toks: seq<Token>) returns (r: Option<NodeId>)
      requires forall n <- cur :: n in node
      ensures r.Some? ==> r.value in cur && r.value !in frozen && node[r.value].toks == toks
      ensures r.None? ==> forall n <- cur :: n in frozen || node[n].toks != toks
    {
      for i := 0 to |cur|
        invariant forall j :: 0 <= j < i ==> cur[j] in frozen || node[cur[j]].toks != toks
      {
        if cur[i] !in frozen && node[cur[i]].toks == toks {
          return Some(cur[i]);
        }
      }
      r := None;
    }

    /** A hit: the node becomes the most recently used. */
    method Touch(n: NodeId)
      requires Valid() && n in node
      requires place[n].parent.Some? && place[n].parent.value in node ==> node[place[n].parent.value].clock == clock
      modifies this`node
      ensures Valid() && node == old(node)[n := old(node)[n].(clock := clock)]
    {
      TouchTrie(nodes, node, place, clock, pageLen, n);
      TouchRest(node, place, freeCaches, host, clock, frozen, pageLen, n);
      TouchContents(m, node, place, host, clock, unfilled, pageLen, n);
      node := node[n := node[n].(clock := clock)];
      assert node.Keys == old(node.Keys);
    }

    /** A miss: a frozen node with a buffer from the pool, or a new one. */
    method Insert(p: Option<NodeId>, toks: seq<Token>) returns (id: NodeId)
      requires Valid() && |toks| == pageLen
      requires p.Some? ==> p.value in node && node[p.value].clock == clock
      modifies this
      ensures Valid() && clock == old(clock) && id == old(nextId)
      ensures exists b: BufId :: node == WithChild(old(node), p, id)[id := Node(toks, b, clock, [])]
      ensures place == old(place)[id := Place(p, PathBelow(old(place), p, toks))]
      ensures frozen == old(frozen) + {id} && unfilled == old(unfilled) + {id}
      ensures forall b <- old(host) :: b in host && host[b] == old(host)[b]
    {
      var b := Allocate();
      id := nextId;
      var n := Node(toks, b, clock, []);
      InsertContents(m, node, place, old(host), unfilled, pageLen, p, id, n, PathBelow(place, p, toks), host);
      InsertOk(nodes, node, place, old(freeCaches), old(host), clock, frozen, pageLen, id, old(nextBuf),
        p, n, freeCaches, host, nextBuf);
      WithChildKeeps(node, p, id, n);
      Attach(p, n);
    }

    /** Hangs a new node below p. */
    method Attach(p: Option<NodeId>, n: Node)
      requires place.Keys == node.Keys && (p.Some? ==> p.value in node)
      modifies this`nodes, this`node, this`place, this`frozen, this`unfilled, this`numNodes, this`nextId
      ensures nodes == if p.None? then old(nodes) + [old(nextId)] else old(nodes)
      ensures node == WithChild(old(node), p, old(nextId))[old(nextId) := n]
      ensures place == old(place)[old(nextId) := Place(p, PathBelow(old(place), p, n.toks))]
      ensures frozen == old(frozen) + {old(nextId)} && unfilled == old(unfilled) + {old(nextId)}
        && numNodes == old(numNodes) + 1 && nextId == old(nextId) + 1
    {
      place := place[nextId := Place(p, PathBelow(place, p, n.toks))];
      if p.None? {
        nodes := nodes + [nextId];
      }
      node := WithChild(node, p, nextId)[nextId := n];
      frozen, unfilled := frozen + {nextId}, unfilled + {nextId};
      numNodes := numNodes + 1;
      nextId := nextId + 1;
    }

    /** One page of prepare_lane: the child of p with these tokens, touched or inserted. */
    method Step(p: Option<NodeId>, toks: seq<Token>, inserting: bool) returns (q: NodeId, hit: bool)
      requires Valid() && |toks| == pageLen
      requires p.Some? ==> p.value in node && node[p.value].clock == clock
      modifies this
      ensures Valid() && q in node && node[q].clock == clock && clock == old(clock)
      ensures Grown(old(node), old(place), old(frozen), old(host), node, place, frozen, host)
      ensures place[q].path == PathBelow(old(place), p, toks)
      ensures inserting ==> !hit
      ensures hit ==> q !in frozen && frozen == old(frozen)
      ensures !hit ==> q !in old(node) && frozen == old(frozen) + {q}
      ensures old(unfilled == frozen) ==> unfilled == frozen
    {
      hit := false;
      if !inserting {
        assert Listed(nodes, node, place, p);
        var r := FindChild(ListOf(nodes, node, p), toks);
        if r.Some? {
          assert Linked(nodes, node, place, pageLen, r.value);
          Touch(r.value);
          return r.value, true;
        }
      }
      q := Insert(p, toks);
    }

    /** The walk so far: the lane built, and the node whose children come next. */
    ghost predicate Walk(ids: seq<NodeId>, tokens: seq<Token>, w: Cursor)
      reads this
    {
      && LaneOk(node, place, frozen, pageLen, DynCacheLane([], w.caches, w.ready), ids, tokens)
      && w.p == (if ids == [] then None else Some(ids[|ids| - 1]))
      && (w.p.Some? ==> w.p.value in node && node[w.p.value].clock == clock)
      && (!w.inserting ==> w.ready == |ids|)
    }

    ghost predicate Since(n0: map<NodeId, Node>, p0: map<NodeId, Place>, f0: set<NodeId>, h0: map<BufId, seq<Cell>>,
        ids: seq<NodeId>, ready: nat)
      reads this
    {
      Grown(n0, p0, f0, h0, node, place, frozen, host) && ready <= |ids| && frozen == f0 + Added(ids, ready)
    }

    /** The body of the loop in prepare_lane: one page. */
    method Advance(w: Cursor, toks: seq<Token>, ghost ids: seq<NodeId>, ghost tokens: seq<Token>)
        returns (w': Cursor, ghost q: NodeId)
      requires Valid() && Walk(ids, tokens, w) && |toks| == pageLen
      requires (|ids| + 1) * pageLen <= |tokens| && toks == tokens[|ids| * pageLen..(|ids| + 1) * pageLen]
      modifies this
      ensures Valid() && Walk(ids + [q], tokens, w')
      ensures Grown(old(node), old(place), old(frozen), old(host), node, place, frozen, host)
      ensures Added(ids + [q], w'.ready) == Added(ids, w.ready) + (frozen - old(frozen)) && old(frozen) <= frozen
      ensures old(unfilled == frozen) ==> unfilled == frozen
    {
      ghost var r := DynCacheLane([], w.caches, w.ready);
      assert (|ids| + 1) * pageLen == |ids| * pageLen + pageLen;
      assert ids != [] ==> OnPath(node, place, frozen, pageLen, r, ids, tokens, |ids| - 1);
      assert PathBelow(place, w.p, toks) == tokens[..(|ids| + 1) * pageLen];
      var n, hit := Step(w.p, toks, w.inserting);
      q := n;
      KeepsLane(old(node), old(place), old(frozen), old(host), node, place, frozen, host, pageLen, r, ids, tokens);
      GrowLane(node, place, frozen, pageLen, [], w.caches, w.ready, ids, tokens, n, hit);
      AddedNext(ids, w.ready, n, hit);
      w' := Cursor(w.caches + [node[n].cache], if hit then w.ready + 1 else w.ready, !hit, Some(n));
    }

    method Next(w: Cursor, toks: seq<Token>, ghost ids: seq<NodeId>, ghost tokens: seq<Token>,
        ghost n0: map<NodeId, Node>, ghost p0: map<NodeId, Place>, ghost f0: set<NodeId>,
          ghost h0: map<BufId, seq<Cell>>)
        returns (w': Cursor, ghost q: NodeId)
      requires Valid() && Walk(ids, tokens, w) && |toks| == pageLen
      requires Since(n0, p0, f0, h0, ids, w.ready)
      requires (|ids| + 1) * pageLen <= |tokens| && toks == tokens[|ids| * pageLen..(|ids| + 1) * pageLen]
      modifies this
      ensures Valid() && Walk(ids + [q], tokens, w') && Since(n0, p0, f0, h0, ids + [q], w'.ready)
      ensures old(unfilled == frozen) ==> unfilled == frozen
    {
      w', q := Advance(w, toks, ids, tokens);
      GrownTrans(n0, p0, f0, h0, old(node), old(place), old(frozen), old(host), node, place, frozen, host);
    }

    /**
     * prepare_lane: follows the trie along the pages of the prompt, and inserts the rest.
     * The pages that were found can be copied in; the inserted ones must be filled.
     */
    method PrepareLane(blocks: seq<nat>, tokens: seq<Token>) returns (r: DynCacheLane, ghost ids: seq<NodeId>)
      requires Valid()
      modifies this
      ensures Valid() && LaneOk(node, place, frozen, pageLen, r, ids, tokens) && r.gpuBlocks == blocks
      ensures Since(old(node), old(place), old(frozen), old(host), ids, r.readyCount)
      ensures if disabled then ids == [] else |tokens| < (|ids| + 1) * pageLen
      ensures old(unfilled == frozen) ==> unfilled == frozen
    {
      ids := [];
      GrownSelf(node, place, frozen, host);
      if disabled {
        r := DynCacheLane(blocks, [], 0);
        return;
      }
      var w := Cursor([], 0, false, None);
      var rest := tokens;
      while |rest| >= pageLen
        invariant Valid() && Walk(ids, tokens, w)
        invariant Since(old(node), old(place), old(frozen), old(host), ids, w.ready)
        invariant |ids| * pageLen <= |tokens| && rest == tokens[|ids| * pageLen..]
        invariant old(unfilled == frozen) ==> unfilled == frozen
        decreases |rest|
      {
        var toks := rest[..pageLen];
        NextSlice(tokens, |ids|, pageLen);
        rest := rest[pageLen..];
        ghost var q;
        w, q := Next(w, toks, ids, tokens, old(node), old(place), old(frozen), old(host));
        ids := ids + [q];
      }
      r := DynCacheLane(blocks, w.caches, w.ready);
      Relabel(node, place, frozen, pageLen, blocks, w.caches, w.ready, ids, tokens);
    }

    /** A buffer from the pool, or a newly built one. */
    method Allocate() returns (b: BufId)
      requires BufsOk(node, freeCaches, host, pageLen) && forall b <- host :: b < nextBuf
      modifies this`freeCaches, this`host, this`nextBuf
      ensures freeCaches <= old(freeCaches) && b !in freeCaches && (b in old(freeCaches) || b !in old(host))
      ensures host.Keys == old(host).Keys + {b} && |host[b]| == pageLen && (forall b <- host :: b < nextBuf)
      ensures forall b <- old(host) :: host[b] == old(host)[b]
    {
      if freeCaches != [] {
        b := freeCaches[|freeCaches| - 1];
        freeCaches := freeCaches[..|freeCaches| - 1];
      } else {
        b := nextBuf;
        nextBuf := nextBuf + 1;
        host := host[b := Zeros(pageLen)];
      }
    }

    /** A copy from the device arrives in the buffer of node n. */
    method Land(b: BufId, cells: seq<Cell>, ghost n: NodeId, ghost right: bool)
      requires Valid() && frozen == {} && n in unfilled && node[n].cache == b && |cells| == pageLen
      requires right ==> pageLen <= |place[n].path| && cells == LastPage(m, place[n].path, pageLen)
      modifies this`host, this`unfilled
      ensures Valid() && host == old(host)[b := cells]
      ensures unfilled == if right then old(unfilled) - {n} else old(unfilled)
    {
      LandOk(nodes, node, place, freeCaches, host, clock, pageLen, nextId, nextBuf, n, cells);
      LandContents(m, node, place, freeCaches, host, pageLen, unfilled, n, cells, right);
      host := host[b := cells];
      unfilled := if right then unfilled - {n} else unfilled;
    }

    /** The lanes of one prefill call: each follows its path, and together they account for every frozen node. */
    ghost predicate Batch(cls: seq<DynCacheLane>, ids: seq<seq<NodeId>>, toks: seq<seq<Token>>)
      reads this
    {
      && |cls| == |ids| == |toks|
      && (forall j: nat {:trigger LaneOk(node, place, frozen, pageLen, cls[j], ids[j], toks[j])} :: j < |cls| ==>
            LaneOk(node, place, frozen, pageLen, cls[j], ids[j], toks[j]))
      && (forall n <- frozen :: Fresh(ids, cls, n))
      && (disabled ==> forall j :: 0 <= j < |ids| ==> ids[j] == [])
    }

    method PrepareNext(blocks: seq<nat>, tokens: seq<Token>, ghost cls: seq<DynCacheLane>, ghost ids: seq<seq<NodeId>>,
        ghost toks: seq<seq<Token>>)
      returns (r: DynCacheLane, ghost path: seq<NodeId>)
      requires Valid() && Batch(cls, ids, toks)
      modifies this
      ensures Valid() && Batch(cls + [r], ids + [path], toks + [tokens]) && r.gpuBlocks == blocks
      ensures if disabled then path == [] else |tokens| < (|path| + 1) * pageLen
      ensures old(unfilled == frozen) ==> unfilled == frozen
    {
      r, path := PrepareLane(blocks, tokens);
      var cls', ids', toks' := cls + [r], ids + [path], toks + [tokens];
      forall j: nat | j < |cls'| ensures LaneOk(node, place, frozen, pageLen, cls'[j], ids'[j], toks'[j]) {
        if j < |cls| {
          assert LaneOk(old(node), old(place), old(frozen), pageLen, cls[j], ids[j], toks[j]);
          KeepsLane(old(node), old(place), old(frozen), old(host), node, place, frozen, host, pageLen, cls[j], ids[j],
            toks[j]);
        }
      }
      FreshMore(old(frozen), frozen, ids, cls, path, r);
    }

    /** tick: the inserted nodes become visible, whether or not their buffers have arrived. */
    method Tick()
      requires Valid()
      modifies this`frozen, this`clock
      ensures Valid() && frozen == {} && clock == old(clock) + 1
    {
      TickOk(nodes, node, place, freeCaches, host, clock, frozen, pageLen, nextId, nextBuf);
      frozen := {};
      clock := clock + 1;
    }

    /** Pops one node, records it, and pushes its children. */
    method Visit(es: seq<Entry>, stk: seq<Frame>) returns (es': seq<Entry>, stk': seq<Frame>)
      requires TrieOk(nodes, node, place, pageLen) && Traversal(nodes, node, place, pageLen, es, stk) && stk != []
      ensures Traversal(nodes, node, place, pageLen, es', stk')
      ensures node.Keys - Ids(es') < node.Keys - Ids(es)
    {
      var f := stk[|stk| - 1];
      StepTraversal(nodes, node, place, pageLen, es, stk);
      es' := es + [Entry(node[f.n].clock, f.d, f.n, f.p)];
      stk' := stk[..|stk| - 1] + Frames(node[f.n].next, Some(f.n), f.d - 1);
      assert f.n in node.Keys - Ids(es) && f.n !in node.Keys - Ids(es');
    }

    /** The traversal at the start of maintain: every node once, with its clock and minus its depth. */
    method Collect() returns (es: seq<Entry>)
      requires Valid()
      ensures EntriesOk(node, place, pageLen, es) && Ids(es) == node.Keys && |es| == numNodes
    {
      es := [];
      var stk := Frames(nodes, None, 0);
      StartFrames(nodes, node, place, pageLen);
      while stk != []
        invariant Traversal(nodes, node, place, pageLen, es, stk)
        decreases node.Keys - Ids(es)
      {
        es, stk := Visit(es, stk);
      }
      AllReached(nodes, node, place, pageLen, es);
      DistinctSize(es);
    }

    /** Unlinks a childless node and returns its buffer to the pool. */
    method Evict(n: NodeId, p: Option<NodeId>)
      requires Valid() && frozen == {} && n in node && node[n].next == [] && place[n].parent == p
      modifies this`nodes, this`node, this`place, this`freeCaches, this`numNodes, this`unfilled
      ensures Valid() && node.Keys == old(node).Keys - {n} && numNodes == old(numNodes) - 1
      ensures freeCaches == old(freeCaches) + [old(node)[n].cache] && unfilled == old(unfilled) - {n}
      ensures forall k: NodeId {:trigger Kept(old(node), old(place), node, place, k)} ::
        k in node ==> Kept(old(node), old(place), node, place, k)
    {
      EvictOk(nodes, node, place, freeCaches, host, clock, pageLen, nextId, nextBuf, n);
      EvictContents(m, node, place, host, pageLen, unfilled, n);
      UnlinkKeeps(node, p, n); UnlinkKept(node, place, p, n);
      hide CacheOk, ContentsOk, Unlink, RemoveFirst, Kept;
      Unhook(n, p);
    }

    method Unhook(n: NodeId, p: Option<NodeId>)
      requires n in node && (p.Some? ==> p.value in node) && numNodes > 0
      modifies this`nodes, this`node, this`place, this`freeCaches, this`numNodes, this`unfilled
      ensures nodes == (if p.None? then RemoveFirst(old(nodes), n) else old(nodes)) && node == Unlink(old(node), p, n)
      ensures freeCaches == old(freeCaches) + [old(node)[n].cache]
      ensures place == old(place) - {n} && unfilled == old(unfilled) - {n} && numNodes == old(numNodes) - 1
    {
      if p.None? {
        nodes := RemoveFirst(nodes, n);
      }
      freeCaches := freeCaches + [node[n].cache];
      node := Unlink(node, p, n);
      place, unfilled := place - {n}, unfilled - {n};
      numNodes := numNodes - 1;
    }

    /** One round of the eviction loop: the least tuple goes; its node is childless. */
    method EvictOldest(es: seq<Entry>) returns (es': seq<Entry>, e: Entry)
      requires Valid() && frozen == {} && es != []
      requires EntriesOk(node, place, pageLen, es) && Ids(es) == node.Keys
      modifies this`nodes, this`node, this`place, this`freeCaches, this`numNodes, this`unfilled
      ensures Valid() && EntriesOk(node, place, pageLen, es') && Ids(es') == node.Keys && |es'| == |es| - 1
      ensures e.n in old(node) && numNodes == old(numNodes) - 1 && unfilled <= old(unfilled)
      ensures freeCaches == old(freeCaches) + [old(node)[e.n].cache]
      ensures Evicted(old(node), old(place), pageLen, [e.n], node, place)
    {
      var i := PopMin(es);
      MinIsLeaf(nodes, node, place, pageLen, clock, es, i);
      e := es[i];
      es' := Without(es, i);
      DropEntries(node, place, pageLen, es, i);
      DropIds(es, i);
      LeastGoes(node, place, pageLen, es, i);
      hide CacheOk, ContentsOk, Kept, Before, EntriesOk, Evicted;
      Evict(e.n, e.p);
      KeepEntries(old(node), old(place), node, place, pageLen, es');
      OneGone(old(node), old(place), pageLen, e.n, node, place);
    }

    /**
     * maintain: when there are too many nodes, the least recently used ones go, deepest
     * first, until three quarters of the limit remain. Their buffers return to the pool.
     */
    method Maintain() returns (ghost gone: seq<NodeId>)
      requires Valid() && frozen == {}
      modifies this`nodes, this`node, this`place, this`freeCaches, this`numNodes, this`unfilled
      ensures Valid() && unfilled <= old(unfilled)
      ensures old(numNodes) <= limit ==> gone == [] && node == old(node) && freeCaches == old(freeCaches)
      ensures old(numNodes) > limit ==> numNodes == 3 * limit / 4
      ensures Evicted(old(node), old(place), pageLen, gone, node, place)
      ensures freeCaches == old(freeCaches) + BufsOf(old(node), gone)
    {
      gone := [];
      forall k: NodeId | k in node ensures Kept(node, place, node, place, k) { }
      if numNodes <= limit {
        return;
      }
      var target := 3 * limit / 4;
      var es := Collect();
      assert numNodes == |es|;
      gone := EvictMany(es, numNodes - target);
    }

    /** The eviction loop of maintain. */
    method EvictMany(entries: seq<Entry>, toEvict: nat) returns (ghost gone: seq<NodeId>)
      requires Valid() && frozen == {} && EntriesOk(node, place, pageLen, entries) && Ids(entries) == node.Keys
      requires toEvict <= |entries|
      modifies this`nodes, this`node, this`place, this`freeCaches, this`numNodes, this`unfilled
      ensures Valid() && numNodes == old(numNodes) - toEvict && unfilled <= old(unfilled)
      ensures Evicted(old(node), old(place), pageLen, gone, node, place)
      ensures freeCaches == old(freeCaches) + BufsOf(old(node), gone)
    {
      gone := [];
      forall k: NodeId | k in node ensures Kept(node, place, node, place, k) { }
      var es := entries;
      var left := toEvict;
      while left > 0
        invariant 0 <= left <= |es| && numNodes - left == old(numNodes) - toEvict && unfilled <= old(unfilled)
        invariant Valid() && EntriesOk(node, place, pageLen, es) && Ids(es) == node.Keys
        invariant Evicted(old(node), old(place), pageLen, gone, node, place)
        invariant freeCaches == old(freeCaches) + BufsOf(old(node), gone)
      {
        es, gone := EvictRound(es, gone, old(node), old(place), old(freeCaches));
        left := left - 1;
      }
    }

    method EvictRound(es: seq<Entry>, ghost gone: seq<NodeId>, ghost n0: map<NodeId, Node>,
        ghost p0: map<NodeId, Place>, ghost pool0: seq<BufId>)
        returns (es': seq<Entry>, ghost gone': seq<NodeId>)
      requires Valid() && frozen == {} && es != [] && EntriesOk(node, place, pageLen, es) && Ids(es) == node.Keys
      requires Evicted(n0, p0, pageLen, gone, node, place) && freeCaches == pool0 + BufsOf(n0, gone)
      modifies this`nodes, this`node, this`place, this`freeCaches, this`numNodes, this`unfilled
      ensures Valid() && EntriesOk(node, place, pageLen, es') && Ids(es') == node.Keys && |es'| == |es| - 1
      ensures Evicted(n0, p0, pageLen, gone', node, place) && freeCaches == pool0 + BufsOf(n0, gone')
      ensures numNodes == old(numNodes) - 1 && unfilled <= old(unfilled)
    {
      var e;
      es', e := EvictOldest(es);
      EvictedNext(n0, p0, pageLen, gone, old(node), old(place), e.n, node, place);
      gone' := gone + [e.n];
    }
  }

  // ---------- eviction ----------

  /** The tuples of maintain's heap: clock, minus the depth, node, owner of the list it is in. */
  datatype Entry = Entry(clock: nat, d: int, n: NodeId, p: Option<NodeId>)

  datatype Frame = Frame(n: NodeId, p: Option<NodeId>, d: int)

  function Frames(ns: seq<NodeId>, p: Option<NodeId>, d: int): (fs: seq<Frame>)
    ensures |fs| == |ns| && forall i :: 0 <= i < |ns| ==> fs[i] == Frame(ns[i], p, d)
  {
    seq(|ns|, i requires 0 <= i < |ns| => Frame(ns[i], p, d))
  }

  ghost function Ids(es: seq<Entry>): set<NodeId> {
    set e | e in es :: e.n
  }

  ghost function StackIds(fs: seq<Frame>): set<NodeId> {
    set f | f in fs :: f.n
  }

  ghost predicate PlaceOk(node: map<NodeId, Node>, place: map<NodeId, Place>, pl: nat, n: NodeId, p: Option<NodeId>,
      d: int) {
    n in node && n in place && place[n].parent == p && |place[n].path| == (1 - d) * pl
  }

  ghost predicate EntriesOk(node: map<NodeId, Node>, place: map<NodeId, Place>, pl: nat, es: seq<Entry>) {
    && (forall i {:trigger es[i]} ::
        0 <= i < |es| ==> PlaceOk(node, place, pl, es[i].n, es[i].p, es[i].d) && es[i].clock == node[es[i].n].clock)
    && (forall i, j :: 0 <= i < j < |es| ==> es[i].n != es[j].n)
  }

  lemma {:induction false} DistinctSize(es: seq<Entry>)
    requires forall i, j :: 0 <= i < j < |es| ==> es[i].n != es[j].n
    ensures |Ids(es)| == |es|
  {
    if es != [] {
      var r, last := es[..|es| - 1], es[|es| - 1];
      DistinctSize(r);
      assert es == r + [last];
      assert last.n !in Ids(r);
      assert Ids(es) == Ids(r) + {last.n};
    }
  }

  ghost predicate StackOk(node: map<NodeId, Node>, place: map<NodeId, Place>, pl: nat, stk: seq<Frame>) {
    && (forall i {:trigger stk[i]} :: 0 <= i < |stk| ==> PlaceOk(node, place, pl, stk[i].n, stk[i].p, stk[i].d))
    && (forall i, j :: 0 <= i < j < |stk| ==> stk[i].n != stk[j].n)
  }

  /** The children of q have been met. */
  ghost predicate KidsMet(node: map<NodeId, Node>, seen: set<NodeId>, q: NodeId)
    requires q in node
  {
    forall n <- node[q].next :: n in seen
  }

  /** n is a root, or its parent has been visited. */
  ghost predicate Below(place: map<NodeId, Place>, done: set<NodeId>, n: NodeId)
    requires n in place
  {
    place[n].parent.Some? ==> place[n].parent.value in done
  }

  /** Everything met hangs below something visited; everything visited has its children met. */
  ghost predicate Closed(roots: seq<NodeId>, node: map<NodeId, Node>, place: map<NodeId, Place>, done: set<NodeId>,
      seen: set<NodeId>) {
    && done <= seen <= node.Keys && place.Keys == node.Keys
    && (forall n <- roots :: n in seen)
    && (forall q: NodeId {:trigger KidsMet(node, seen, q)} :: q in done ==> KidsMet(node, seen, q))
    && (forall n: NodeId {:trigger Below(place, done, n)} :: n in seen ==> Below(place, done, n))
  }

  ghost predicate Traversal(roots: seq<NodeId>, node: map<NodeId, Node>, place: map<NodeId, Place>, pl: nat,
      es: seq<Entry>, stk: seq<Frame>) {
    && EntriesOk(node, place, pl, es) && StackOk(node, place, pl, stk)
    && Ids(es) !! StackIds(stk)
    && Closed(roots, node, place, Ids(es), Ids(es) + StackIds(stk))
  }

  lemma ClosedStep(roots: seq<NodeId>, node: map<NodeId, Node>, place: map<NodeId, Place>, pl: nat, done: set<NodeId>,
      seen: set<NodeId>, f: NodeId)
    requires TrieOk(roots, node, place, pl) && Closed(roots, node, place, done, seen) && f in seen
    ensures Closed(roots, node, place, done + {f}, seen + set n | n in node[f].next)
  {
    var done', seen' := done + {f}, seen + set n | n in node[f].next;
    assert Listed(roots, node, place, Some(f));
    assert forall n <- node[f].next :: n in ListOf(roots, node, Some(f));
    forall q: NodeId | q in done' ensures KidsMet(node, seen', q) {
      if q in done { assert KidsMet(node, seen, q); }
    }
    forall n: NodeId | n in seen' ensures Below(place, done', n) {
      if n in seen { assert Below(place, done, n); }
    }
  }

  /** The children of a node just popped are new, and placed one level deeper. */
  lemma KidsFacts(roots: seq<NodeId>, node: map<NodeId, Node>, place: map<NodeId, Place>, pl: nat, seen: set<NodeId>,
      done: set<NodeId>, f: Frame)
    requires TrieOk(roots, node, place, pl) && PlaceOk(node, place, pl, f.n, f.p, f.d)
    requires Closed(roots, node, place, done, seen) && f.n !in done
    ensures var kids := Frames(node[f.n].next, Some(f.n), f.d - 1);
      && (forall i {:trigger kids[i]} ::
          0 <= i < |kids| ==> PlaceOk(node, place, pl, kids[i].n, kids[i].p, kids[i].d) && kids[i].n !in seen)
      && (forall i, j :: 0 <= i < j < |kids| ==> kids[i].n != kids[j].n)
      && StackIds(kids) == (set n | n in node[f.n].next)
  {
    var kids := Frames(node[f.n].next, Some(f.n), f.d - 1);
    assert Listed(roots, node, place, Some(f.n));
    forall i | 0 <= i < |kids| ensures PlaceOk(node, place, pl, kids[i].n, kids[i].p, kids[i].d) && kids[i].n !in seen {
      var c := node[f.n].next[i];
      assert c in ListOf(roots, node, Some(f.n));
      assert Linked(roots, node, place, pl, c);
      assert c in seen ==> Below(place, done, c);
      NextLevel(f.d, pl);
    }
    assert forall i :: 0 <= i < |kids| ==> kids[i] in kids;
    forall n | n in node[f.n].next ensures n in StackIds(kids) {
      var i :| 0 <= i < |kids| && node[f.n].next[i] == n;
      assert kids[i] in kids;
    }
  }

  lemma NextLevel(d: int, pl: nat)
    ensures (1 - d) * pl + pl == (1 - (d - 1)) * pl
  {
  }

  lemma PopFacts(roots: seq<NodeId>, node: map<NodeId, Node>, place: map<NodeId, Place>, pl: nat, es: seq<Entry>,
      stk: seq<Frame>)
    requires Traversal(roots, node, place, pl, es, stk) && stk != []
    ensures var f := stk[|stk| - 1];
      PlaceOk(node, place, pl, f.n, f.p, f.d) && f.n in node && f.n !in Ids(es) && f.n in StackIds(stk)
  {
    assert stk[|stk| - 1] in stk;
  }

  lemma StepTraversal(roots: seq<NodeId>, node: map<NodeId, Node>, place: map<NodeId, Place>, pl: nat, es: seq<Entry>,
      stk: seq<Frame>)
    requires TrieOk(roots, node, place, pl) && Traversal(roots, node, place, pl, es, stk) && stk != []
    ensures var f := stk[|stk| - 1];
      && f.n in node && f.n !in Ids(es)
      && Ids(es + [Entry(node[f.n].clock, f.d, f.n, f.p)]) == Ids(es) + {f.n}
      && Traversal(roots, node, place, pl, es + [Entry(node[f.n].clock, f.d, f.n, f.p)],
          stk[..|stk| - 1] + Frames(node[f.n].next, Some(f.n), f.d - 1))
  {
    var f, top := stk[|stk| - 1], stk[..|stk| - 1];
    PopFacts(roots, node, place, pl, es, stk);
    hide TrieOk, Linked, Listed, Closed, EntriesOk, Frames, PlaceOk, KidsMet, Below, Ids, StackIds;
    assert stk == top + [f];
    var e := Entry(node[f.n].clock, f.d, f.n, f.p);
    var kids := Frames(node[f.n].next, Some(f.n), f.d - 1);
    KidsFacts(roots, node, place, pl, Ids(es) + StackIds(stk), Ids(es), f);
    KidsStack(stk, top, f, kids);
    AppendEntry(node, place, pl, es, e);
    Disjoint(es, e, stk, top, kids);
    ClosedStep(roots, node, place, pl, Ids(es), Ids(es) + StackIds(stk), f.n);
    KidsPlaced(node, place, pl, stk, top, kids);
    hide StackOk;
    assert Ids(es + [e]) + StackIds(top + kids) == Ids(es) + StackIds(stk) + (set n | n in node[f.n].next);
  }

  lemma KidsPlaced(node: map<NodeId, Node>, place: map<NodeId, Place>, pl: nat, stk: seq<Frame>, top: seq<Frame>,
      kids: seq<Frame>)
    requires StackOk(node, place, pl, stk) && top <= stk
    requires forall i {:trigger kids[i]} ::
      0 <= i < |kids| ==> PlaceOk(node, place, pl, kids[i].n, kids[i].p, kids[i].d)
    requires forall i, j :: 0 <= i < j < |top + kids| ==> (top + kids)[i].n != (top + kids)[j].n
    ensures StackOk(node, place, pl, top + kids)
  {
    hide PlaceOk;
  }

  lemma Disjoint(es: seq<Entry>, e: Entry, stk: seq<Frame>, top: seq<Frame>, kids: seq<Frame>)
    requires Ids(es) !! StackIds(stk) && StackIds(stk) == StackIds(top) + {e.n} && e.n !in StackIds(top)
    requires StackIds(top + kids) == StackIds(top) + StackIds(kids) && Ids(es + [e]) == Ids(es) + {e.n}
    requires forall i :: 0 <= i < |kids| ==> kids[i].n !in Ids(es) + StackIds(stk)
    ensures Ids(es + [e]) !! StackIds(top + kids)
  {
    assert StackIds(kids) !! (Ids(es) + StackIds(stk));
  }

  lemma AppendEntry(node: map<NodeId, Node>, place: map<NodeId, Place>, pl: nat, es: seq<Entry>, e: Entry)
    requires EntriesOk(node, place, pl, es) && PlaceOk(node, place, pl, e.n, e.p, e.d) && e.clock == node[e.n].clock
      && e.n !in Ids(es)
    ensures EntriesOk(node, place, pl, es + [e]) && Ids(es + [e]) == Ids(es) + {e.n}
  {
    forall i | 0 <= i < |es| ensures es[i].n != e.n { assert es[i] in es; }
  }

  lemma KidsStack(stk: seq<Frame>, top: seq<Frame>, f: Frame, kids: seq<Frame>)
    requires stk == top + [f] && (forall i, j :: 0 <= i < j < |stk| ==> stk[i].n != stk[j].n)
    requires forall i :: 0 <= i < |kids| ==> kids[i].n !in StackIds(stk)
    requires forall i, j :: 0 <= i < j < |kids| ==> kids[i].n != kids[j].n
    ensures StackIds(stk) == StackIds(top) + {f.n} && f.n !in StackIds(top)
    ensures StackIds(top + kids) == StackIds(top) + StackIds(kids)
    ensures forall i, j :: 0 <= i < j < |top + kids| ==> (top + kids)[i].n != (top + kids)[j].n
  {
    forall i | 0 <= i < |top| ensures top[i].n in StackIds(stk) && top[i].n != f.n {
      assert stk[i] in stk;
      assert stk[|top|] == f;
    }
    var s := top + kids;
    forall i, j | 0 <= i < j < |s| ensures s[i].n != s[j].n {
      if j < |top| { assert s[i] == stk[i] && s[j] == stk[j]; }
      else if i < |top| { assert s[i] == top[i] && s[j] == kids[j - |top|]; }
      else { assert s[i] == kids[i - |top|] && s[j] == kids[j - |top|]; }
    }
  }

  lemma {:induction false} Reached(roots: seq<NodeId>, node: map<NodeId, Node>, place: map<NodeId, Place>, pl: nat,
      es: seq<Entry>, n: NodeId)
    requires TrieOk(roots, node, place, pl) && pl > 0 && Closed(roots, node, place, Ids(es), Ids(es)) && n in node
    ensures n in Ids(es)
    decreases |place[n].path|
  {
    assert Linked(roots, node, place, pl, n);
    if place[n].parent.Some? {
      Reached(roots, node, place, pl, es, place[n].parent.value);
      assert KidsMet(node, Ids(es), place[n].parent.value);
    }
  }

  lemma AllReached(roots: seq<NodeId>, node: map<NodeId, Node>, place: map<NodeId, Place>, pl: nat, es: seq<Entry>)
    requires TrieOk(roots, node, place, pl) && pl > 0 && Traversal(roots, node, place, pl, es, [])
    ensures Ids(es) == node.Keys
  {
    assert Ids(es) + StackIds([]) == Ids(es);
    forall n | n in node ensures n in Ids(es) { Reached(roots, node, place, pl, es, n); }
  }

  // The heap order: oldest clock first, then deepest, then lowest id.

  predicate KeyLess(a: Entry, b: Entry) {
    a.clock < b.clock || (a.clock == b.clock && (a.d < b.d || (a.d == b.d && a.n < b.n)))
  }

  /** The order in which nodes are given up: older, then deeper, then lower id. */
  ghost predicate Before(node: map<NodeId, Node>, place: map<NodeId, Place>, pl: nat, g: NodeId, k: NodeId) {
    && g in node && k in node && g in place && k in place
    && (node[g].clock < node[k].clock || (node[g].clock == node[k].clock &&
        (|place[g].path| > |place[k].path| || (|place[g].path| == |place[k].path| && g < k))))
  }

  ghost function BufsOf(node: map<NodeId, Node>, gone: seq<NodeId>): seq<BufId> {
    seq(|gone|, i requires 0 <= i < |gone| => if gone[i] in node then node[gone[i]].cache else 0)
  }

  /** A survivor is untouched, but for the list of its children. */
  ghost predicate Kept(n0: map<NodeId, Node>, p0: map<NodeId, Place>, node: map<NodeId, Node>,
      place: map<NodeId, Place>, k: NodeId) {
    && k in n0 && k in node && k in p0 && k in place
    && node[k].clock == n0[k].clock && node[k].cache == n0[k].cache && node[k].toks == n0[k].toks && place[k] == p0[k]
  }

  /** The state after giving up the nodes in `gone`, all of them before every survivor. */
  ghost predicate Evicted(n0: map<NodeId, Node>, p0: map<NodeId, Place>, pl: nat, gone: seq<NodeId>,
      node: map<NodeId, Node>, place: map<NodeId, Place>) {
    && NoDup(gone) && ToSet(gone) == n0.Keys - node.Keys && node.Keys <= n0.Keys
    && (forall g: NodeId, k: NodeId {:trigger Before(n0, p0, pl, g, k)} ::
        g in gone && k in node ==> Before(n0, p0, pl, g, k))
    && (forall k: NodeId {:trigger Kept(n0, p0, node, place, k)} :: k in node ==> Kept(n0, p0, node, place, k))
  }

  lemma EvictedNext(n0: map<NodeId, Node>, p0: map<NodeId, Place>, pl: nat, gone: seq<NodeId>, n1: map<NodeId, Node>,
      p1: map<NodeId, Place>,
      e: NodeId, n2: map<NodeId, Node>, p2: map<NodeId, Place>)
    requires Evicted(n0, p0, pl, gone, n1, p1) && Evicted(n1, p1, pl, [e], n2, p2) && e in n1
    ensures Evicted(n0, p0, pl, gone + [e], n2, p2)
    ensures BufsOf(n0, gone + [e]) == BufsOf(n0, gone) + [n1[e].cache]
  {
    assert Kept(n0, p0, n1, p1, e);
    assert e !in ToSet(gone);
    assert ToSet(gone + [e]) == ToSet(gone) + {e};
    assert ToSet([e]) == {e};
    forall g: NodeId, k: NodeId | g in gone + [e] && k in n2 ensures Before(n0, p0, pl, g, k) {
      assert k in n1;
      assert Kept(n0, p0, n1, p1, k);
      if g in gone { assert Before(n0, p0, pl, g, k); } else { assert Before(n1, p1, pl, e, k); }
    }
    forall k: NodeId | k in n2 ensures Kept(n0, p0, n2, p2, k) {
      assert Kept(n0, p0, n1, p1, k) && Kept(n1, p1, n2, p2, k);
    }
  }

  lemma EntryOf(es: seq<Entry>, n: NodeId) returns (j: nat)
    requires n in Ids(es)
    ensures j < |es| && es[j].n == n
  {
    var x :| x in es && x.n == n;
    j :| 0 <= j < |es| && es[j] == x;
  }

  lemma DropIds(es: seq<Entry>, i: nat)
    requires i < |es| && forall j, k :: 0 <= j < k < |es| ==> es[j].n != es[k].n
    ensures Ids(Without(es, i)) == Ids(es) - {es[i].n}
  {
    var r := Without(es, i);
    forall n ensures n in Ids(r) <==> n in Ids(es) && n != es[i].n {
      if n in Ids(r) {
        var j := EntryOf(r, n);
        assert r[j] == es[if j < i then j else j + 1];
        assert es[if j < i then j else j + 1] in es;
      }
      if n in Ids(es) && n != es[i].n {
        var j := EntryOf(es, n);
        assert r[if j < i then j else j - 1] == es[j];
        assert es[j] in r;
      }
    }
  }

  lemma DropEntries(node: map<NodeId, Node>, place: map<NodeId, Place>, pl: nat, es: seq<Entry>, i: nat)
    requires EntriesOk(node, place, pl, es) && i < |es|
    ensures EntriesOk(node, place, pl, Without(es, i))
  {
    var r := Without(es, i);
    assert forall j :: 0 <= j < |r| ==> r[j] == es[if j < i then j else j + 1];
  }

  lemma KeepEntries(n0: map<NodeId, Node>, p0: map<NodeId, Place>, node: map<NodeId, Node>, place: map<NodeId, Place>,
      pl: nat, es: seq<Entry>)
    requires EntriesOk(n0, p0, pl, es) && Ids(es) == node.Keys
    requires forall k: NodeId {:trigger Kept(n0, p0, node, place, k)} :: k in node ==> Kept(n0, p0, node, place, k)
    ensures EntriesOk(node, place, pl, es)
  {
    forall i | 0 <= i < |es|
      ensures PlaceOk(node, place, pl, es[i].n, es[i].p, es[i].d) && es[i].clock == node[es[i].n].clock {
      assert es[i] in es;
      assert es[i].n in Ids(es);
      assert Kept(n0, p0, node, place, es[i].n);
    }
  }

  lemma LeastGoes(node: map<NodeId, Node>, place: map<NodeId, Place>, pl: nat, es: seq<Entry>, i: nat)
    requires pl > 0 && EntriesOk(node, place, pl, es) && Ids(es) == node.Keys && i < |es|
    requires forall j :: 0 <= j < |es| ==> !KeyLess(es[j], es[i])
    ensures forall k: NodeId {:trigger Before(node, place, pl, es[i].n, k)} :: k in node && k != es[i].n ==>
      Before(node, place, pl, es[i].n, k)
  {
    forall k: NodeId | k in node && k != es[i].n ensures Before(node, place, pl, es[i].n, k) {
      MinIsBefore(node, place, pl, es, i, k);
    }
  }

  lemma OneGone(n0: map<NodeId, Node>, p0: map<NodeId, Place>, pl: nat, e: NodeId, node: map<NodeId, Node>,
      place: map<NodeId, Place>)
    requires e in n0 && node.Keys == n0.Keys - {e}
    requires forall k: NodeId {:trigger Before(n0, p0, pl, e, k)} :: k in n0 && k != e ==> Before(n0, p0, pl, e, k)
    requires forall k: NodeId {:trigger Kept(n0, p0, node, place, k)} :: k in node ==> Kept(n0, p0, node, place, k)
    ensures Evicted(n0, p0, pl, [e], node, place)
  {
    assert ToSet([e]) == {e};
  }

  /** The least tuple comes before every other node. */
  lemma MinIsBefore(node: map<NodeId, Node>, place: map<NodeId, Place>, pl: nat, es: seq<Entry>, i: nat, k: NodeId)
    requires pl > 0 && EntriesOk(node, place, pl, es) && i < |es| && k in Ids(es) && k != es[i].n
    requires forall j :: 0 <= j < |es| ==> !KeyLess(es[j], es[i])
    ensures Before(node, place, pl, es[i].n, k)
  {
    var j := EntryOf(es, k);
    assert PlaceOk(node, place, pl, es[i].n, es[i].p, es[i].d) && PlaceOk(node, place, pl, es[j].n, es[j].p, es[j].d);
    LevelOrder(es[i].d, es[j].d, pl);
  }

  lemma LevelOrder(d: int, c: int, pl: nat)
    requires pl > 0
    ensures d < c ==> (1 - d) * pl > (1 - c) * pl
    ensures d == c ==> (1 - d) * pl == (1 - c) * pl
  {
    if d < c { assert (1 - d) * pl == (1 - c) * pl + (c - d) * pl; assert (c - d) * pl > 0; }
  }

  function Without(es: seq<Entry>, i: nat): seq<Entry>
    requires i < |es|
  {
    es[..i] + es[i + 1..]
  }

  /** heappop: the least tuple, and the rest. */
  method PopMin(es: seq<Entry>) returns (i: nat)
    requires es != []
    ensures i < |es| && forall j :: 0 <= j < |es| ==> !KeyLess(es[j], es[i])
  {
    i := 0;
    for j := 1 to |es|
      invariant i < |es| && forall k :: 0 <= k < j ==> !KeyLess(es[k], es[i])
    {
      if KeyLess(es[j], es[i]) { i := j; }
    }
  }

  /** The least tuple is a childless node: a child is no younger and lies deeper. */
  lemma MinIsLeaf(roots: seq<NodeId>, node: map<NodeId, Node>, place: map<NodeId, Place>, pl: nat, clock: nat,
      es: seq<Entry>, i: nat)
    requires TrieOk(roots, node, place, pl) && pl > 0 && ClocksOk(node, place, clock)
    requires EntriesOk(node, place, pl, es) && Ids(es) == node.Keys && i < |es|
    requires forall j :: 0 <= j < |es| ==> !KeyLess(es[j], es[i])
    ensures es[i].n in node && node[es[i].n].next == [] && place[es[i].n].parent == es[i].p
  {
    var e := es[i];
    assert PlaceOk(node, place, pl, e.n, e.p, e.d);
    if node[e.n].next != [] {
      var c := node[e.n].next[0];
      assert Listed(roots, node, place, Some(e.n));
      assert c in ListOf(roots, node, Some(e.n));
      assert c in Ids(es);
      var k :| k in es && k.n == c;
      var j :| 0 <= j < |es| && es[j] == k;
      assert PlaceOk(node, place, pl, es[j].n, es[j].p, es[j].d);
      assert Linked(roots, node, place, pl, c);
      assert Aged(node, place, clock, c);
      assert !KeyLess(es[j], e);
      Deeper(pl, e.d, k.d);
    }
  }

  lemma Deeper(pl: nat, d: int, c: int)
    requires pl > 0 && (1 - c) * pl == (1 - d) * pl + pl
    ensures c < d
  {
    if c >= d { MulMono(1 - c, 1 - d, pl); }
  }

  // ---------- unlinking ----------

  function Unlink(node: map<NodeId, Node>, p: Option<NodeId>, n: NodeId): map<NodeId, Node>
    requires p.Some? ==> p.value in node
  {
    (if p.None? then node else node[p.value := node[p.value].(next := RemoveFirst(node[p.value].next, n))]) - {n}
  }

  lemma UnlinkKeeps(node: map<NodeId, Node>, p: Option<NodeId>, n: NodeId)
    requires n in node && (p.Some? ==> p.value in node && p.value != n)
    ensures var node' := Unlink(node, p, n);
      && node'.Keys == node.Keys - {n} && |node'| == |node| - 1
      && forall k {:trigger node'[k]} ::
          k in node' ==>
            node'[k].clock == node[k].clock && node'[k].cache == node[k].cache && node'[k].toks == node[k].toks
  {
    var node' := Unlink(node, p, n);
    assert node'.Keys == node.Keys - {n};
    assert |node'.Keys| == |node.Keys| - 1;
  }

  lemma {:induction false} RemoveFirstSpec(s: seq<NodeId>, n: NodeId)
    requires NoDup(s)
    ensures NoDup(RemoveFirst(s, n))
    ensures forall x {:trigger x in RemoveFirst(s, n)} :: x in RemoveFirst(s, n) <==> x in s && x != n
  {
    if s != [] {
      assert s == [s[0]] + s[1..];
      assert forall i :: 0 <= i < |s[1..]| ==> s[1..][i] == s[i + 1];
      RemoveFirstSpec(s[1..], n);
      if s[0] != n {
        var r := RemoveFirst(s[1..], n);
        assert s[0] !in s[1..];
        assert s[0] !in r;
      } else {
        assert n !in s[1..];
      }
    }
  }

  lemma UnlinkTrie(roots: seq<NodeId>, node: map<NodeId, Node>, place: map<NodeId, Place>, pl: nat, p: Option<NodeId>,
      n: NodeId)
    requires TrieOk(roots, node, place, pl) && pl > 0 && n in node && node[n].next == [] && place[n].parent == p
    ensures p.Some? ==> p.value in node && p.value != n
    ensures TrieOk(if p.None? then RemoveFirst(roots, n) else roots, Unlink(node, p, n), place - {n}, pl)
  {
    assert Linked(roots, node, place, pl, n);
    assert p.Some? ==> |place[n].path| == |place[p.value].path| + pl;
    UnlinkKeeps(node, p, n);
    var roots', node', place' := if p.None? then RemoveFirst(roots, n) else roots, Unlink(node, p, n), place - {n};
    forall q: Option<NodeId>
      ensures ListOf(roots', node', q)
        == if q == p then RemoveFirst(ListOf(roots, node, q), n) else ListOf(roots, node, q) {
      if q.Some? && q.value == n { assert n !in node'; }
    }
    forall k: NodeId | k in node' ensures Linked(roots', node', place', pl, k) {
      assert Linked(roots, node, place, pl, k);
      assert Listed(roots, node, place, place[k].parent);
      assert place[k].parent != Some(n);
      RemoveFirstSpec(ListOf(roots, node, place[k].parent), n);
    }
    forall q: Option<NodeId> ensures Listed(roots', node', place', q) {
      assert Listed(roots, node, place, q);
      RemoveFirstSpec(ListOf(roots, node, q), n);
      if n in ListOf(roots, node, q) { assert q == p; }
    }
  }

  lemma UnlinkKept(node: map<NodeId, Node>, place: map<NodeId, Place>, p: Option<NodeId>, n: NodeId)
    requires place.Keys == node.Keys && n in node && (p.Some? ==> p.value in node && p.value != n)
    ensures var node', place' := Unlink(node, p, n), place - {n};
      forall k: NodeId {:trigger Kept(node, place, node', place', k)} ::
        k in node' ==> Kept(node, place, node', place', k)
  {
    UnlinkKeeps(node, p, n);
  }

  lemma EvictContents(m: Model, node: map<NodeId, Node>, place: map<NodeId, Place>, host: map<BufId, seq<Cell>>,
      pl: nat,
      unfilled: set<NodeId>, n: NodeId)
    requires place.Keys == node.Keys && n in node && ContentsOk(m, node, place, host, pl, unfilled)
    requires place[n].parent.Some? ==> place[n].parent.value in node && place[n].parent.value != n
    ensures var node', place' := Unlink(node, place[n].parent, n), place - {n};
      place'.Keys == node'.Keys && ContentsOk(m, node', place', host, pl, unfilled - {n})
  {
    var node', place' := Unlink(node, place[n].parent, n), place - {n};
    assert place'.Keys == node'.Keys;
    forall k: NodeId | k in node' && k !in unfilled - {n} ensures Filled(m, node', place', host, pl, k) {
      assert Filled(m, node, place, host, pl, k);
    }
  }

  lemma EvictOk(roots: seq<NodeId>, node: map<NodeId, Node>, place: map<NodeId, Place>, pool: seq<BufId>,
      host: map<BufId, seq<Cell>>, clock: nat, pl: nat, nextId: nat, nextBuf: nat, n: NodeId)
    requires CacheOk(roots, node, place, pool, host, clock, {}, pl, nextId, nextBuf) && pl > 0
    requires n in node && node[n].next == []
    ensures var p := place[n].parent;
      && (p.Some? ==> p.value in node && p.value != n)
      && CacheOk(if p.None? then RemoveFirst(roots, n) else roots, Unlink(node, p, n), place - {n},
          pool + [node[n].cache],
        host, clock, {}, pl, nextId, nextBuf)
  {
    var p := place[n].parent;
    UnlinkTrie(roots, node, place, pl, p, n);
    UnlinkKeeps(node, p, n);
    var node', place', pool' := Unlink(node, p, n), place - {n}, pool + [node[n].cache];
    forall k: NodeId | k in node' ensures Aged(node', place', clock, k) { assert Aged(node, place, clock, k); }
    forall k: NodeId | k in node' ensures FrozenBelow(place', {}, k) { }
    assert Holds(node, pool, host, n);
    forall k: NodeId | k in node' ensures Holds(node', pool', host, k) {
      assert Holds(node, pool, host, k);
      assert Apart(node, k, n);
    }
    forall k: NodeId, l: NodeId | k in node' && l in node' ensures Apart(node', k, l) { assert Apart(node, k, l); }
  }

  lemma StartFrames(roots: seq<NodeId>, node: map<NodeId, Node>, place: map<NodeId, Place>, pl: nat)
    requires TrieOk(roots, node, place, pl)
    ensures Traversal(roots, node, place, pl, [], Frames(roots, None, 0))
  {
    var stk := Frames(roots, None, 0);
    assert Listed(roots, node, place, None);
    forall i | 0 <= i < |roots| ensures PlaceOk(node, place, pl, stk[i].n, stk[i].p, stk[i].d) {
      assert roots[i] in ListOf(roots, node, None);
      assert Linked(roots, node, place, pl, roots[i]);
    }
    forall n | n in roots ensures n in StackIds(stk) {
      var i :| 0 <= i < |roots| && roots[i] == n;
      assert stk[i] in stk;
    }
    forall n | n in StackIds(stk) ensures n in node && Below(place, {}, n) {
      assert n in ListOf(roots, node, None);
    }
  }

  lemma LandOk(roots: seq<NodeId>, node: map<NodeId, Node>, place: map<NodeId, Place>, pool: seq<BufId>,
      host: map<BufId, seq<Cell>>, clock: nat, pl: nat, nextId: nat, nextBuf: nat, n: NodeId, cells: seq<Cell>)
    requires CacheOk(roots, node, place, pool, host, clock, {}, pl, nextId, nextBuf)
    requires n in node && |cells| == pl
    ensures CacheOk(roots, node, place, pool, host[node[n].cache := cells], clock, {}, pl, nextId, nextBuf)
  {
    var host' := host[node[n].cache := cells];
    assert Holds(node, pool, host, n);
    forall k: NodeId | k in node ensures Holds(node, pool, host', k) { assert Holds(node, pool, host, k); }
  }

  lemma TickOk(roots: seq<NodeId>, node: map<NodeId, Node>, place: map<NodeId, Place>, pool: seq<BufId>,
      host: map<BufId, seq<Cell>>, clock: nat, frozen: set<NodeId>, pl: nat, nextId: nat, nextBuf: nat)
    requires CacheOk(roots, node, place, pool, host, clock, frozen, pl, nextId, nextBuf)
    ensures CacheOk(roots, node, place, pool, host, clock + 1, {}, pl, nextId, nextBuf)
  {
    forall k: NodeId | k in node ensures Aged(node, place, clock + 1, k) { assert Aged(node, place, clock, k); }
    forall k: NodeId | k in node ensures FrozenBelow(place, {}, k) { }
  }

  const PAGE_IN: bv2 := 1
  const PAGE_OUT: bv2 := 2

  /** The cache object of one prefill; its mode says which copies the next call of the model makes. */
  class DynCache {
    const lanes: seq<DynCacheLane>
    var mode: bv2

    constructor (lanes: seq<DynCacheLane>)
      ensures this.lanes == lanes && mode == 3
    {
      this.lanes, mode := lanes, 3;
    }

    method Disable(bit: bv2)
      modifies this
      ensures mode == old(mode) & !bit
    {
      mode := mode & !bit;
    }

    method Enable(bit: bv2)
      modifies this
      ensures mode == old(mode) | bit
    {
      mode := mode | bit;
    }
  }

  function RemoveFirst(s: seq<NodeId>, n: NodeId): seq<NodeId> {
    if s == [] then [] else if s[0] == n then s[1..] else [s[0]] + RemoveFirst(s[1..], n)
  }
}
