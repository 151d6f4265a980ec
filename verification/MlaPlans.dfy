// The plan of MlaPrefill.prepare: the context of all lanes, end to end, is cut into chunks;
// for each chunk, the lanes in it, where each lane's part starts, and which of the chunk's
// latents the local shard holds and in which slots of its cache.
module MlaPlans {
  import opened Basics
  import opened Slots

  /** shardIndex lists the offsets of a chunk that the shard holds (all of them when it is alone). */
  datatype ChunkPlan = ChunkPlan(queryFrom: nat, queryTo: nat, cacheIndex: seq<nat>, qSeqstart: seq<nat>,
      kSeqstart: seq<nat>,
    maxSeqlen: nat, shardIndex: seq<nat>, length: nat)

  /** What the plan is made from: context lengths, query offsets, block table, block length, shard. */
  datatype Input = Input(kSeqlen: seq<nat>, qCumsum: seq<nat>, tbl: seq<seq<nat>>, blockLen: nat, shard: nat,
      nshards: nat)
  {
    function PageLen(): nat { blockLen * nshards }

    /** A table row long enough for each context; a context may be empty. */
    ghost predicate Valid() {
      && blockLen > 0 && shard < nshards && PageLen() > 0
      && |tbl| == |kSeqlen| && |qCumsum| == |kSeqlen| + 1
      && (forall i, j :: 0 <= i < j < |qCumsum| ==> qCumsum[i] <= qCumsum[j])
      && (forall n, p: nat {:trigger InRow(n, p)} :: 0 <= n < |kSeqlen| && p < kSeqlen[n] ==> InRow(n, p))
    }

    ghost predicate InRow(n: int, p: nat) {
      blockLen > 0 && nshards > 0 && 0 <= n < |tbl| && 0 <= p / nshards / blockLen < |tbl[n]|
    }
  }

  /** Where each lane's context starts when they are laid end to end. */
  ghost predicate Sums(cum: seq<nat>, k: seq<nat>) {
    |cum| == |k| + 1 && cum[0] == 0 && forall n :: 0 <= n < |k| ==> cum[n + 1] == cum[n] + k[n]
  }

  lemma {:induction false} SumsIncrease(cum: seq<nat>, k: seq<nat>, i: nat, j: nat)
    requires Sums(cum, k) && i <= j < |cum|
    ensures cum[i] <= cum[j]
    decreases j
  {
    if i < j { SumsIncrease(cum, k, i, j - 1); }
  }

  /** The lane that global position g falls in. */
  ghost predicate In(cum: seq<nat>, n: nat, g: nat) {
    n + 1 < |cum| && cum[n] <= g < cum[n + 1]
  }

  lemma OneLane(cum: seq<nat>, k: seq<nat>, n: nat, m: nat, g: nat)
    requires Sums(cum, k) && In(cum, n, g) && In(cum, m, g)
    ensures n == m
  {
    if n < m { SumsIncrease(cum, k, n + 1, m); }
    if m < n { SumsIncrease(cum, k, m + 1, n); }
  }

  function Clamp(x: nat, lo: nat, hi: nat): nat { if x < lo then lo else if x > hi then hi else x }

  /** The shard holds the latent of position p of lane n. */
  ghost predicate Mine(inp: Input, p: nat) {
    inp.nshards > 0 && p % inp.nshards == inp.shard
  }

  /** Offset o of the chunk is position p of lane n, which the shard holds in this slot. */
  ghost predicate EntryAt(inp: Input, cum: seq<nat>, beg: nat, o: nat, slot: nat, n: nat) {
    In(cum, n, beg + o) &&
    var p := beg + o - cum[n];
    n < |inp.tbl| && Mine(inp, p) && inp.InRow(n, p) && slot == WriterSlot(inp.tbl[n], p, inp.blockLen, inp.nshards)
  }

  /** The latent at this offset is the shard's, and was written to this slot. */
  ghost predicate EntryOk(inp: Input, cum: seq<nat>, beg: nat, o: nat, slot: nat) {
    exists n: nat {:trigger EntryAt(inp, cum, beg, o, slot, n)} :: EntryAt(inp, cum, beg, o, slot, n)
  }

  /** Offset o of the chunk is listed if it is the shard's. */
  ghost predicate Covered(inp: Input, cum: seq<nat>, beg: nat, offs: seq<nat>, o: nat) {
    forall n: nat {:trigger In(cum, n, beg + o)} :: In(cum, n, beg + o) && Mine(inp, beg + o - cum[n]) ==> o in offs
  }

  /** The index lists are right for the chunk's first `upto` offsets. */
  ghost predicate Entries(inp: Input, cum: seq<nat>, beg: nat, offs: seq<nat>, slots: seq<nat>, upto: nat) {
    && |offs| == |slots|
    && (forall s, t :: 0 <= s < t < |offs| ==> offs[s] < offs[t])
    && (forall t: nat {:trigger offs[t]} :: t < |offs| ==> offs[t] < upto && EntryOk(inp, cum, beg, offs[t], slots[t]))
    && (forall o: nat {:trigger Covered(inp, cum, beg, offs, o)} :: o < upto ==> Covered(inp, cum, beg, offs, o))
  }

  /** Chunk [beg, end): exactly the lanes a..b meet it, cut where they meet it. */
  ghost predicate ChunkOk(inp: Input, cum: seq<nat>, beg: nat, end: nat, ch: ChunkPlan) {
    && beg < end && ch.length == end - beg
    && Entries(inp, cum, beg, ch.shardIndex, ch.cacheIndex, end - beg)
    && exists a: nat, b: nat {:trigger Lanes(inp, cum, beg, end, ch, a, b)} :: Lanes(inp, cum, beg, end, ch, a, b)
  }

  ghost predicate Lanes(inp: Input, cum: seq<nat>, beg: nat, end: nat, ch: ChunkPlan, a: nat, b: nat) {
    && beg < end && a < b < |cum| == |inp.qCumsum| && In(cum, a, beg) && In(cum, b - 1, end - 1)
    && ch.queryFrom == inp.qCumsum[a] && ch.queryTo == inp.qCumsum[b]
    && |ch.qSeqstart| == |ch.kSeqstart| == b - a + 1
    && (forall j :: 0 <= j <= b - a ==> ch.qSeqstart[j] + inp.qCumsum[a] == inp.qCumsum[a + j])
    && (forall j :: 0 <= j <= b - a ==> ch.kSeqstart[j] == Clamp(cum[a + j], beg, end) - beg)
    && (forall j ::
        0 <= j < b - a ==>
          ch.kSeqstart[j] < ch.kSeqstart[j + 1] && ch.kSeqstart[j + 1] - ch.kSeqstart[j] <= ch.maxSeqlen)
  }

  /** `[j for j in range(beg, end) if j % c == i]` */
  function Select(beg: nat, end: nat, i: nat, c: nat): (s: seq<nat>)
    requires beg <= end && c > 0
    ensures (forall x, y :: 0 <= x < y < |s| ==> s[x] < s[y]) && (forall x :: x in s ==> beg <= x < end && x % c == i)
    ensures forall x: nat {:trigger x in s} {:trigger x % c} :: beg <= x < end && x % c == i ==> x in s
    decreases end - beg
  {
    if beg == end then []
    else
      var r := Select(beg, end - 1, i, c);
      assert forall x :: 0 <= x < |r| ==> r[x] in r;
      if (end - 1) % c == i then r + [end - 1] else r
  }

  function Cumsum(k: seq<nat>): (cum: seq<nat>)
    ensures Sums(cum, k)
  {
    if k == [] then [0] else var c := Cumsum(k[..|k| - 1]); c + [c[|k| - 1] + k[|k| - 1]]
  }

  /**
   * The part [beg, end) of lane n, as it joins the index lists: its positions, their offsets in the chunk,
   * their slots.
   */
  ghost predicate PieceOk(inp: Input, cum: seq<nat>, cbeg: nat, n: nat, beg: nat, end: nat, upto: nat, mine: seq<nat>,
      offs: seq<nat>, slots: seq<nat>) {
    && n < |inp.kSeqlen| && n + 1 < |cum| && beg <= end <= inp.kSeqlen[n] && cum[n] + beg == cbeg + upto
    && inp.nshards > 0 && mine == Select(beg, end, inp.shard, inp.nshards) && |offs| == |slots| == |mine|
    && (forall t: nat {:trigger SlotOk(inp, n, beg, upto, mine, offs, slots, t)} ::
        t < |mine| ==> SlotOk(inp, n, beg, upto, mine, offs, slots, t))
  }

  ghost predicate SlotOk(inp: Input, n: nat, beg: nat, upto: nat, mine: seq<nat>, offs: seq<nat>, slots: seq<nat>,
      t: nat)
    requires t < |mine| == |offs| == |slots|
  {
    && offs[t] == mine[t] - beg + upto && n < |inp.tbl|
    && inp.blockLen > 0 && inp.nshards > 0 && inp.PageLen() > 0 && 0 <= mine[t] / inp.PageLen() < |inp.tbl[n]|
    && slots[t] == ReaderSlot(inp.tbl[n], mine[t], inp.blockLen, inp.nshards)
  }

  lemma PieceEntry(inp: Input, cum: seq<nat>, cbeg: nat, n: nat, beg: nat, end: nat, upto: nat, mine: seq<nat>,
      offs: seq<nat>, slots: seq<nat>, t: nat)
    requires inp.Valid() && Sums(cum, inp.kSeqlen) && PieceOk(inp, cum, cbeg, n, beg, end, upto, mine, offs, slots)
      && t < |offs|
    ensures upto <= offs[t] < upto + (end - beg) && EntryOk(inp, cum, cbeg, offs[t], slots[t])
  {
    assert SlotOk(inp, n, beg, upto, mine, offs, slots, t) && mine[t] in mine;
    assert inp.InRow(n, mine[t]);
    SameSlot(inp.tbl[n], mine[t], inp.blockLen, inp.nshards);
    assert EntryAt(inp, cum, cbeg, offs[t], slots[t], n);
  }

  lemma PieceCovers(inp: Input, cum: seq<nat>, cbeg: nat, n: nat, beg: nat, end: nat, upto: nat, mine: seq<nat>,
      offs: seq<nat>, slots: seq<nat>, o: nat)
    requires inp.Valid() && Sums(cum, inp.kSeqlen) && PieceOk(inp, cum, cbeg, n, beg, end, upto, mine, offs, slots)
      && upto <= o < upto + (end - beg)
    ensures Covered(inp, cum, cbeg, offs, o)
  {
    forall m: nat | In(cum, m, cbeg + o) && Mine(inp, cbeg + o - cum[m]) ensures o in offs {
      assert In(cum, n, cbeg + o);
      OneLane(cum, inp.kSeqlen, m, n, cbeg + o);
      var p := cbeg + o - cum[n];
      assert p % inp.nshards == inp.shard && p in mine;
      var t: nat :| t < |mine| && mine[t] == p;
      assert SlotOk(inp, n, beg, upto, mine, offs, slots, t);
    }
  }

  /** One lane's part joins the index lists. */
  lemma AddPiece(inp: Input, cum: seq<nat>, cbeg: nat, offs: seq<nat>, slots: seq<nat>, n: nat, beg: nat, end: nat,
      upto: nat, mine: seq<nat>, offs': seq<nat>, slots': seq<nat>)
    requires inp.Valid() && Sums(cum, inp.kSeqlen) && Entries(inp, cum, cbeg, offs, slots, upto)
    requires PieceOk(inp, cum, cbeg, n, beg, end, upto, mine, offs', slots')
    ensures Entries(inp, cum, cbeg, offs + offs', slots + slots', upto + (end - beg))
  {
    var o, s := offs + offs', slots + slots';
    forall t: nat | t < |o|
      ensures o[t] < upto + (end - beg) && EntryOk(inp, cum, cbeg, o[t], s[t]) && (t < |offs| <==> o[t] < upto) {
      if t < |offs| {
        assert offs[t] < upto && EntryOk(inp, cum, cbeg, offs[t], slots[t]);
      } else {
        PieceEntry(inp, cum, cbeg, n, beg, end, upto, mine, offs', slots', t - |offs|);
      }
    }
    forall x, y | 0 <= x < y < |o| ensures o[x] < o[y] {
      if x >= |offs| {
        assert SlotOk(inp, n, beg, upto, mine, offs', slots', x - |offs|)
          && SlotOk(inp, n, beg, upto, mine, offs', slots', y - |offs|);
      }
    }
    forall x: nat | x < upto + (end - beg) ensures Covered(inp, cum, cbeg, o, x) {
      if x < upto {
        assert Covered(inp, cum, cbeg, offs, x);
      } else {
        PieceCovers(inp, cum, cbeg, n, beg, end, upto, mine, offs', slots', x);
      }
    }
  }

  /** The positions the reader looks up are in the table. */
  lemma InTable(inp: Input, n: nat, p: nat)
    requires inp.Valid() && n < |inp.kSeqlen| && p < inp.kSeqlen[n]
    ensures 0 <= p / inp.PageLen() < |inp.tbl[n]|
  {
    assert inp.InRow(n, p);
    SameSlot(inp.tbl[n], p, inp.blockLen, inp.nshards);
  }

  /** The body of the `for` loop: lane n's part of the chunk. */
  method BuildPiece(inp: Input, ghost cum: seq<nat>, ghost cbeg: nat, n: nat, beg: nat, end: nat, upto: nat)
      returns (offs: seq<nat>, slots: seq<nat>)
    requires inp.Valid() && Sums(cum, inp.kSeqlen) && n < |inp.kSeqlen| && beg <= end <= inp.kSeqlen[n]
      && cum[n] + beg == cbeg + upto
    ensures PieceOk(inp, cum, cbeg, n, beg, end, upto, Select(beg, end, inp.shard, inp.nshards), offs, slots)
  {
    var mine := Select(beg, end, inp.shard, inp.nshards);
    assert forall t :: 0 <= t < |mine| ==> mine[t] in mine;
    forall t | 0 <= t < |mine| ensures 0 <= mine[t] / inp.PageLen() < |inp.tbl[n]| { InTable(inp, n, mine[t]); }
    offs := seq(|mine|, t requires 0 <= t < |mine| => mine[t] - beg + upto);
    slots := seq(|mine|, t requires 0 <= t < |mine| => ReaderSlot(inp.tbl[n], mine[t], inp.blockLen, inp.nshards));
    forall t: nat | t < |mine| ensures SlotOk(inp, n, beg, upto, mine, offs, slots, t) { }
  }

  /** The part of lane n in the chunk, and where it starts there; it is empty only if the context is. */
  lemma PieceBounds(inp: Input, cum: seq<nat>, cbeg: nat, cend: nat, a: nat, b: nat, n: nat)
    requires inp.Valid() && Sums(cum, inp.kSeqlen) && cbeg < cend && b > 0 && In(cum, a, cbeg)
      && In(cum, b - 1, cend - 1) && a <= n < b
    ensures n < |inp.kSeqlen|
    ensures var beg, end := Max(cbeg, cum[n]) - cum[n], Min(cend, cum[n + 1]) - cum[n];
      && 0 <= beg <= end <= inp.kSeqlen[n] && (beg < end <==> inp.kSeqlen[n] > 0)
      && cum[n] + beg == Clamp(cum[n], cbeg, cend) && cum[n] + end == Clamp(cum[n + 1], cbeg, cend)
  {
    if a < n { SumsIncrease(cum, inp.kSeqlen, a + 1, n); }
    SumsIncrease(cum, inp.kSeqlen, a + 1, n + 1); SumsIncrease(cum, inp.kSeqlen, n, b - 1);
  }

  lemma NoEntries(inp: Input, cum: seq<nat>, cbeg: nat)
    ensures Entries(inp, cum, cbeg, [], [], 0)
  {
  }

  /** No lane of a..b has an empty context. */
  ghost predicate Filled(inp: Input, a: nat, b: nat) {
    forall n :: a <= n < b && n < |inp.kSeqlen| ==> inp.kSeqlen[n] > 0
  }

  /** Where the parts of lanes a..n start in the chunk, and where the last one ends; none is longer than `most`. */
  ghost predicate Starts(cum: seq<nat>, cbeg: nat, cend: nat, a: nat, n: nat, start: seq<nat>, most: nat) {
    && a <= n < |cum| && cbeg <= cend && |start| == n - a + 1
    && (forall j :: 0 <= j <= n - a ==> start[j] == Clamp(cum[a + j], cbeg, cend) - cbeg)
    && (forall j :: 0 <= j < n - a ==> start[j] < start[j + 1] && start[j + 1] - start[j] <= most)
  }

  lemma StartsNext(cum: seq<nat>, cbeg: nat, cend: nat, a: nat, n: nat, start: seq<nat>, most: nat, len: nat)
    requires Starts(cum, cbeg, cend, a, n, start, most) && n + 1 < |cum| && len > 0
    requires Clamp(cum[n + 1], cbeg, cend) == Clamp(cum[n], cbeg, cend) + len
    ensures Starts(cum, cbeg, cend, a, n + 1, start + [start[n - a] + len], Max(len, most))
    ensures start[n - a] == Clamp(cum[n], cbeg, cend) - cbeg
  {
  }

  lemma StartsHere(cum: seq<nat>, cbeg: nat, cend: nat, a: nat)
    requires In(cum, a, cbeg) && cbeg < cend
    ensures Starts(cum, cbeg, cend, a, a, [0], 0)
  {
  }

  lemma StartsAt(cum: seq<nat>, cbeg: nat, cend: nat, a: nat, n: nat, start: seq<nat>, most: nat)
    requires Starts(cum, cbeg, cend, a, n, start, most)
    ensures |start| == n - a + 1 && start[n - a] == Clamp(cum[n], cbeg, cend) - cbeg
  {
  }

  /** One chunk: the body of the outer loop. */
  method BuildChunk(inp: Input, cum: seq<nat>, cbeg: nat, cend: nat, a: nat, b: nat) returns (r: Option<ChunkPlan>)
    requires inp.Valid() && Sums(cum, inp.kSeqlen) && cbeg < cend && a < b && In(cum, a, cbeg)
      && In(cum, b - 1, cend - 1)
    ensures r.Some? <==> Filled(inp, a, b)
    ensures r.Some? ==> ChunkOk(inp, cum, cbeg, cend, r.value)
  {
    hide Entries, PieceOk, Select, WriterSlot, ReaderSlot, Starts, Clamp, ChunkOk, In;
    var shardIndex: seq<nat>, cacheIndex: seq<nat>, seqstart: seq<nat>, maxSeqlen: nat := [], [], [0], 0;
    NoEntries(inp, cum, cbeg); StartsHere(cum, cbeg, cend, a); InBounds(cum, b - 1, cend - 1);
    for n := a to b
      invariant Starts(cum, cbeg, cend, a, n, seqstart, maxSeqlen) && |seqstart| == n - a + 1
      invariant Entries(inp, cum, cbeg, shardIndex, cacheIndex, seqstart[n - a])
      invariant Filled(inp, a, n)
    {
      PieceBounds(inp, cum, cbeg, cend, a, b, n); StartsAt(cum, cbeg, cend, a, n, seqstart, maxSeqlen);
      var beg, end := Max(cbeg, cum[n]) - cum[n], Min(cend, cum[n + 1]) - cum[n];
      // the assertion of the source
      if beg >= end { return None; }
      var upto := seqstart[n - a];
      var offs, slots := BuildPiece(inp, cum, cbeg, n, beg, end, upto);
      AddPiece(inp, cum, cbeg, shardIndex, cacheIndex, n, beg, end, upto, Select(beg, end, inp.shard, inp.nshards),
        offs, slots);
      StartsNext(cum, cbeg, cend, a, n, seqstart, maxSeqlen, end - beg);
      shardIndex, cacheIndex := shardIndex + offs, cacheIndex + slots;
      seqstart := seqstart + [upto + (end - beg)];
      maxSeqlen := Max(end - beg, maxSeqlen);
    }
    var q := inp.qCumsum;
    var ch := ChunkPlan(q[a], q[b], cacheIndex, Rebase(q[a..b + 1]), seqstart, maxSeqlen, shardIndex, seqstart[b - a]);
    ChunkDone(inp, cum, cbeg, cend, a, b, ch);
    r := Some(ch);
  }

  lemma InBounds(cum: seq<nat>, n: nat, g: nat)
    requires In(cum, n, g)
    ensures n + 1 < |cum|
  {
  }

  lemma ChunkDone(inp: Input, cum: seq<nat>, cbeg: nat, cend: nat, a: nat, b: nat, ch: ChunkPlan)
    requires inp.Valid() && Sums(cum, inp.kSeqlen) && cbeg < cend && a < b && In(cum, a, cbeg)
      && In(cum, b - 1, cend - 1)
    requires Starts(cum, cbeg, cend, a, b, ch.kSeqstart, ch.maxSeqlen) && ch.length == ch.kSeqstart[b - a]
    requires Entries(inp, cum, cbeg, ch.shardIndex, ch.cacheIndex, ch.length)
    requires ch.queryFrom == inp.qCumsum[a] && ch.queryTo == inp.qCumsum[b]
      && ch.qSeqstart == Rebase(inp.qCumsum[a..b + 1])
    ensures ChunkOk(inp, cum, cbeg, cend, ch)
  {
    assert Clamp(cum[b], cbeg, cend) == cend;
    assert Lanes(inp, cum, cbeg, cend, ch, a, b);
  }

  /** `q_seqstart - q_cumsum[lane_beg]` */
  function Rebase(q: seq<nat>): (r: seq<nat>)
    requires q != [] && forall j :: 0 <= j < |q| ==> q[0] <= q[j]
    ensures |r| == |q| && forall j :: 0 <= j < |q| ==> r[j] + q[0] == q[j]
  {
    seq(|q|, j requires 0 <= j < |q| => (q[j] - q[0]) as nat)
  }

  /** Chunk t is [ends[t], ends[t + 1]), and all are right. */
  ghost predicate Chunks(inp: Input, cum: seq<nat>, size: nat, ends: seq<nat>, plan: seq<ChunkPlan>) {
    && |ends| == |plan| + 1 && ends[0] == 0
    && (forall t: nat {:trigger plan[t]} :: t < |plan| ==>
          ends[t] < ends[t + 1] <= ends[t] + size && ChunkOk(inp, cum, ends[t], ends[t + 1], plan[t]))
  }

  lemma ChunksNext(inp: Input, cum: seq<nat>, size: nat, ends: seq<nat>, plan: seq<ChunkPlan>, end: nat, ch: ChunkPlan)
    requires Chunks(inp, cum, size, ends, plan) && ends[|plan|] < end <= ends[|plan|] + size
      && ChunkOk(inp, cum, ends[|plan|], end, ch)
    ensures Chunks(inp, cum, size, ends + [end], plan + [ch]) && (ends + [end])[|plan + [ch]|] == end
  {
  }

  /** `k_cumsum` */
  method Accumulate(k: seq<nat>) returns (cum: seq<nat>)
    ensures cum == Cumsum(k)
  {
    cum := [0];
    for n := 0 to |k|
      invariant cum == Cumsum(k[..n])
    {
      assert k[..n + 1][..n] == k[..n];
      cum := cum + [k[n] + cum[n]];
    }
    assert k[..|k|] == k;
  }

  /** An empty context lies where a chunk starts or after all the others, never inside a chunk. */
  ghost predicate Tidy(cum: seq<nat>, k: seq<nat>, size: nat, n: nat)
    requires size > 0 && n < |k| && |cum| == |k| + 1
  {
    k[n] == 0 ==> cum[n] % size == 0 || cum[n] == cum[|k|]
  }

  ghost predicate AllTidy(cum: seq<nat>, k: seq<nat>, size: nat)
    requires size > 0 && |cum| == |k| + 1
  {
    forall n: nat {:trigger Tidy(cum, k, size, n)} :: n < |k| ==> Tidy(cum, k, size, n)
  }

  /** Whatever lies inside a chunk is not a multiple of the chunk size. */
  lemma Inside(c: nat, size: nat, g: nat)
    requires size > 0 && c % size == 0 && c < g < c + size
    ensures g % size != 0
  {
    DivUnique(g, size, c / size, g - c);
  }

  lemma NextStart(c: nat, size: nat)
    requires size > 0 && c % size == 0
    ensures (c + size) % size == 0
  {
    assert c == c / size * size;
    assert (c / size + 1) * size == c / size * size + size;
    DivUnique(c + size, size, c / size + 1, 0);
  }

  /** The lanes of a chunk: an empty one among them is not tidy, and there is no other empty one inside the chunk. */
  lemma EmptyInside(inp: Input, cum: seq<nat>, size: nat, cbeg: nat, cend: nat, a: nat, b: nat, n: nat)
    requires Sums(cum, inp.kSeqlen) && size > 0 && n < |inp.kSeqlen| && inp.kSeqlen[n] == 0
    requires cbeg % size == 0 && cbeg < cend == Min(cbeg + size, cum[|inp.kSeqlen|])
    requires a < b && In(cum, a, cbeg) && In(cum, b - 1, cend - 1)
    ensures a <= n < b ==> !Tidy(cum, inp.kSeqlen, size, n)
    ensures cum[n] < cend && !(a <= n < b) ==> cum[n] <= cbeg
  {
    var k := inp.kSeqlen;
    if a <= n < b {
      SumsIncrease(cum, k, a + 1, n); SumsIncrease(cum, k, n, b - 1);
      Inside(cbeg, size, cum[n]);
    }
    if n < a { SumsIncrease(cum, k, n + 1, a); }
    if n >= b { SumsIncrease(cum, k, b, n); }
  }

  /** Empty contexts that start before g are tidy. */
  ghost predicate TidyBefore(cum: seq<nat>, k: seq<nat>, size: nat, g: nat)
    requires size > 0 && |cum| == |k| + 1
  {
    forall n: nat {:trigger Tidy(cum, k, size, n)} :: n < |k| && cum[n] < g ==> Tidy(cum, k, size, n)
  }

  lemma TidyChunk(inp: Input, cum: seq<nat>, size: nat, cbeg: nat, cend: nat, a: nat, b: nat)
    requires Sums(cum, inp.kSeqlen) && size > 0 && TidyBefore(cum, inp.kSeqlen, size, cbeg)
    requires cbeg % size == 0 && cbeg < cend == Min(cbeg + size, cum[|inp.kSeqlen|])
    requires a < b && In(cum, a, cbeg) && In(cum, b - 1, cend - 1)
    ensures Filled(inp, a, b) ==> TidyBefore(cum, inp.kSeqlen, size, cend)
    ensures !Filled(inp, a, b) ==> !AllTidy(cum, inp.kSeqlen, size)
  {
    var k := inp.kSeqlen;
    if Filled(inp, a, b) {
      forall n: nat | n < |k| && cum[n] < cend ensures Tidy(cum, k, size, n) {
        if k[n] == 0 {
          EmptyInside(inp, cum, size, cbeg, cend, a, b, n);
          assert cum[n] < cbeg ==> Tidy(cum, k, size, n);
        }
      }
    } else {
      var n :| a <= n < b && n < |k| && k[n] == 0;
      EmptyInside(inp, cum, size, cbeg, cend, a, b, n);
    }
  }

  lemma EndTidy(cum: seq<nat>, k: seq<nat>, size: nat)
    requires Sums(cum, k) && size > 0 && TidyBefore(cum, k, size, cum[|k|])
    ensures AllTidy(cum, k, size)
  {
    forall n: nat | n < |k| ensures Tidy(cum, k, size, n) { SumsIncrease(cum, k, n, |k|); }
  }

  /**
   * `prepare`: the chunks follow each other without gap or overlap through the contexts of all
   * lanes; each has at most `size` positions. Its assertion fails exactly when an empty context
   * lies inside a chunk.
   */
  method Prepare(inp: Input, size: nat) returns (r: Option<seq<ChunkPlan>>, ghost ends: seq<nat>)
    requires inp.Valid() && size > 0
    ensures r.Some? <==> AllTidy(Cumsum(inp.kSeqlen), inp.kSeqlen, size)
    ensures r.Some? ==> Chunks(inp, Cumsum(inp.kSeqlen), size, ends, r.value)
    ensures r.Some? ==> ends[|r.value|] == Cumsum(inp.kSeqlen)[|inp.kSeqlen|]
  {
    var n := |inp.kSeqlen|;
    var cum := Accumulate(inp.kSeqlen);
    var plan: seq<ChunkPlan> := [];
    ends := [0];
    var cbeg, cend := 0, Min(size, cum[n]);
    var a: nat := 0;
    hide ChunkOk, Chunks, Cumsum, Entries, AllTidy, TidyBefore, Filled;
    EmptyPlan(inp, cum, size); NothingBefore(cum, inp.kSeqlen, size);
    while cbeg < cend
      invariant Chunks(inp, cum, size, ends, plan) && |ends| == |plan| + 1
        && ends[|plan|] == cbeg <= cend == Min(cbeg + size, cum[n])
      invariant a <= n && cum[a] <= cbeg && (a == n ==> cbeg == cum[n])
      invariant TidyBefore(cum, inp.kSeqlen, size, cbeg) && (cbeg < cend ==> cbeg % size == 0)
      decreases cum[n] - cbeg
    {
      a := FirstLane(inp, cum, cbeg, a);
      var b := LastLane(inp, cum, cend, a);
      TidyChunk(inp, cum, size, cbeg, cend, a, b); NextStart(cbeg, size);
      var ch := BuildChunk(inp, cum, cbeg, cend, a, b);
      if ch.None? { return None, ends; }
      ChunksNext(inp, cum, size, ends, plan, cend, ch.value);
      plan, ends := plan + [ch.value], ends + [cend];
      cbeg, cend := cend, Min(cend + size, cum[n]);
    }
    EndTidy(cum, inp.kSeqlen, size);
    r := Some(plan);
  }

  lemma NothingBefore(cum: seq<nat>, k: seq<nat>, size: nat)
    requires size > 0 && |cum| == |k| + 1
    ensures TidyBefore(cum, k, size, 0) && 0 % size == 0
  {
  }

  lemma EmptyPlan(inp: Input, cum: seq<nat>, size: nat)
    ensures Chunks(inp, cum, size, [0], [])
  {
  }

  /** `while k_cumsum[lane_beg + 1] <= chunk_beg` */
  method FirstLane(inp: Input, cum: seq<nat>, cbeg: nat, lo: nat) returns (a: nat)
    requires Sums(cum, inp.kSeqlen) && lo < |inp.kSeqlen| && cum[lo] <= cbeg < cum[|inp.kSeqlen|]
    ensures In(cum, a, cbeg)
  {
    a := lo;
    while cum[a + 1] <= cbeg
      invariant a < |inp.kSeqlen| && cum[a] <= cbeg
      decreases |inp.kSeqlen| - a
    {
      a := a + 1;
    }
  }

  /** `while k_cumsum[lane_end] < chunk_end` */
  method LastLane(inp: Input, cum: seq<nat>, cend: nat, a: nat) returns (b: nat)
    requires Sums(cum, inp.kSeqlen) && a < |inp.kSeqlen| && cum[a] < cend <= cum[|inp.kSeqlen|]
    ensures a < b && In(cum, b - 1, cend - 1)
  {
    b := a;
    while cum[b] < cend
      invariant a <= b <= |inp.kSeqlen| && (b == a || cum[b - 1] < cend)
      decreases |inp.kSeqlen| - b
    {
      b := b + 1;
    }
  }

  // ---------- the shards together ----------

  lemma AnyShard(inp: Input, i: nat)
    requires inp.Valid() && i < inp.nshards
    ensures inp.(shard := i).Valid()
  {
    var other := inp.(shard := i);
    forall n, p: nat | 0 <= n < |inp.kSeqlen| && p < inp.kSeqlen[n] ensures other.InRow(n, p) {
      assert inp.InRow(n, p);
    }
  }

  /** Every offset of a chunk is listed by exactly one shard, the one whose turn its position is. */
  lemma ShardsPartition(inp: Input, cum: seq<nat>, beg: nat, end: nat, i: nat, c: ChunkPlan, o: nat, n: nat)
    requires inp.Valid() && Sums(cum, inp.kSeqlen) && i < inp.nshards && o < end - beg && In(cum, n, beg + o)
    requires ChunkOk(inp.(shard := i), cum, beg, end, c)
    ensures o in c.shardIndex <==> (beg + o - cum[n]) % inp.nshards == i
  {
    AnyShard(inp, i);
    ListedIff(inp.(shard := i), cum, beg, end, c, o, n);
  }

  lemma ListedIff(inp: Input, cum: seq<nat>, beg: nat, end: nat, c: ChunkPlan, o: nat, n: nat)
    requires inp.Valid() && Sums(cum, inp.kSeqlen) && ChunkOk(inp, cum, beg, end, c) && o < end - beg
      && In(cum, n, beg + o)
    ensures o in c.shardIndex <==> (beg + o - cum[n]) % inp.nshards == inp.shard
  {
    assert Covered(inp, cum, beg, c.shardIndex, o);
    if o in c.shardIndex {
      var t: nat :| t < |c.shardIndex| && c.shardIndex[t] == o;
      assert EntryOk(inp, cum, beg, c.shardIndex[t], c.cacheIndex[t]);
      var m: nat :| EntryAt(inp, cum, beg, c.shardIndex[t], c.cacheIndex[t], m);
      OneLane(cum, inp.kSeqlen, n, m, beg + o);
    }
  }

  /** What the reader gathers for a listed offset is what the kernel scattered for that position. */
  lemma ReadsWhatWasWritten(inp: Input, cum: seq<nat>, beg: nat, end: nat, c: ChunkPlan, t: nat, n: nat)
    requires inp.Valid() && Sums(cum, inp.kSeqlen) && ChunkOk(inp, cum, beg, end, c) && t < |c.shardIndex|
      && In(cum, n, beg + c.shardIndex[t])
    ensures t < |c.cacheIndex| && n < |inp.tbl|
    ensures var p := beg + c.shardIndex[t] - cum[n];
      p % inp.nshards == inp.shard && 0 <= p / inp.nshards / inp.blockLen < |inp.tbl[n]|
      && c.cacheIndex[t] == WriterSlot(inp.tbl[n], p, inp.blockLen, inp.nshards)
  {
    assert EntryOk(inp, cum, beg, c.shardIndex[t], c.cacheIndex[t]);
    var m: nat :| EntryAt(inp, cum, beg, c.shardIndex[t], c.cacheIndex[t], m);
    OneLane(cum, inp.kSeqlen, n, m, beg + c.shardIndex[t]);
  }
}
