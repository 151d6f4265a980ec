// The kernel that scatters one element per program instance into a paged cache, possibly
// split over shards: each instance finds its slot and copies its element in masked blocks.
module PagedMemcpy {
  import opened Basics
  import opened Slots
  import Kv

  /** Constant arguments of the kernel. */
  datatype Layout = Layout(blockSize: nat, elemDim: nat, pageSize: nat, dstStride: nat, shard: nat, count: nat)
  {
    ghost predicate Valid() {
      blockSize > 0 && elemDim > 0 && pageSize > 0 && shard < count && elemDim <= dstStride
    }
  }

  /** Instance e stores: its position belongs to this shard. */
  predicate Stores(l: Layout, pos: seq<nat>, e: nat)
    requires l.count > 0 && e < |pos|
  {
    pos[e] % l.count == l.shard
  }

  /** Its page is in the table. */
  ghost predicate Paged(l: Layout, rows: seq<seq<nat>>, pos: seq<nat>, e: nat)
    requires l.Valid() && e < |rows| == |pos|
  {
    0 <= pos[e] / l.count / l.pageSize < |rows[e]|
  }

  function SlotOf(l: Layout, rows: seq<seq<nat>>, pos: seq<nat>, e: nat): nat
    requires l.Valid() && e < |rows| == |pos| && Paged(l, rows, pos, e)
  {
    WriterSlot(rows[e], pos[e], l.pageSize, l.count)
  }

  /** The cells of slot s hold element e. */
  ghost predicate HoldsElement(l: Layout, dst: seq<int>, src: seq<int>, s: nat, e: nat) {
    Same(dst, s * l.dstStride, src, e * l.elemDim, l.elemDim)
  }

  ghost predicate Same(dst: seq<int>, to: nat, src: seq<int>, from: nat, d: nat) {
    to + d <= |dst| && from + d <= |src| && dst[to..to + d] == src[from..from + d]
  }

  /** The block loop: offsets past the element are masked. */
  method CopyBlocks(l: Layout, src: array<int>, dst: array<int>, from: nat, to: nat)
    requires l.Valid() && src != dst && from + l.elemDim <= src.Length && to + l.elemDim <= dst.Length
    modifies dst
    ensures dst[..] == old(dst[..to]) + src[from..from + l.elemDim] + old(dst[to + l.elemDim..])
  {
    var offset := 0;
    while offset < l.elemDim
      invariant 0 <= offset
      invariant forall x :: 0 <= x < dst.Length ==>
        dst[x] == if to <= x < to + l.elemDim && x < to + offset then src[from + (x - to)] else old(dst[x])
      decreases l.elemDim - offset
    {
      forall d | offset <= d < offset + l.blockSize && d < l.elemDim { dst[to + d] := src[from + d]; }
      offset := offset + l.blockSize;
    }
    var want := old(dst[..to]) + src[from..from + l.elemDim] + old(dst[to + l.elemDim..]);
    assert forall x :: 0 <= x < dst.Length ==> dst[x] == want[x];
  }

  /** One program instance. */
  method Instance(l: Layout, src: array<int>, dst: array<int>, rows: seq<seq<nat>>, pos: seq<nat>, e: nat)
    requires l.Valid() && src != dst && e < |rows| == |pos| && e * l.elemDim + l.elemDim <= src.Length
    requires Stores(l, pos, e) ==>
      Paged(l, rows, pos, e) && SlotOf(l, rows, pos, e) * l.dstStride + l.elemDim <= dst.Length
    modifies dst
    ensures !Stores(l, pos, e) ==> dst[..] == old(dst[..])
    ensures Stores(l, pos, e) ==> var to := SlotOf(l, rows, pos, e) * l.dstStride;
      dst[..] == old(dst[..to]) + src[e * l.elemDim..e * l.elemDim + l.elemDim] + old(dst[to + l.elemDim..])
  {
    var dstPos := pos[e];
    if l.count > 1 {
      if dstPos % l.count != l.shard { return; }
    }
    dstPos := dstPos / l.count;
    var page := rows[e][dstPos / l.pageSize];
    var dstOfs := dstPos % l.pageSize;
    CopyBlocks(l, src, dst, e * l.elemDim, (page * l.pageSize + dstOfs) * l.dstStride);
  }

  /** Slots of different numbers do not overlap. */
  lemma SlotsApart(l: Layout, a: nat, b: nat)
    requires l.Valid() && a != b
    ensures a * l.dstStride + l.elemDim <= b * l.dstStride || b * l.dstStride + l.elemDim <= a * l.dstStride
  {
    if a < b { MulMono(a + 1, b, l.dstStride); Distribute(a, 1, l.dstStride); }
    else { MulMono(b + 1, a, l.dstStride); Distribute(b, 1, l.dstStride); }
  }

  /** Another slot's element survives a store. */
  lemma Survives(l: Layout, before: seq<int>, after: seq<int>, src: seq<int>, s: nat, e: nat, to: nat)
    requires l.Valid() && HoldsElement(l, before, src, s, e) && to != s
      && to * l.dstStride + l.elemDim <= |before| == |after|
    requires after[..to * l.dstStride] == before[..to * l.dstStride]
    requires after[to * l.dstStride + l.elemDim..] == before[to * l.dstStride + l.elemDim..]
    ensures HoldsElement(l, after, src, s, e)
  {
    hide Same;
    SlotsApart(l, s, to);
    SliceKept(before, after, s * l.dstStride, to * l.dstStride, src, e * l.elemDim, l.elemDim);
  }

  lemma SliceKept(before: seq<int>, after: seq<int>, b: nat, t: nat, src: seq<int>, from: nat, d: nat)
    requires Same(before, b, src, from, d) && (b + d <= t || t + d <= b) && t + d <= |before| == |after|
    requires after[..t] == before[..t] && after[t + d..] == before[t + d..]
    ensures Same(after, b, src, from, d)
  {
    forall x | b <= x < b + d ensures after[x] == before[x] {
      if x < t {
        assert after[..t][x] == before[..t][x];
      } else {
        assert after[t + d..][x - t - d] == before[t + d..][x - t - d];
      }
    }
    assert after[b..b + d] == before[b..b + d];
  }

  /** Instance e is due, and its store is inside the destination. */
  ghost predicate Fits(l: Layout, rows: seq<seq<nat>>, pos: seq<nat>, size: nat, e: nat)
    requires l.Valid() && e < |rows| == |pos|
  {
    Stores(l, pos, e) ==> Paged(l, rows, pos, e) && SlotOf(l, rows, pos, e) * l.dstStride + l.elemDim <= size
  }

  /** Two storing instances have different slots. */
  ghost predicate Distinct(l: Layout, rows: seq<seq<nat>>, pos: seq<nat>, e: nat, f: nat)
    requires l.Valid() && e < |rows| == |pos| && f < |pos|
  {
    e != f && Stores(l, pos, e) && Stores(l, pos, f) && Paged(l, rows, pos, e) && Paged(l, rows, pos, f) ==>
      SlotOf(l, rows, pos, e) != SlotOf(l, rows, pos, f)
  }

  ghost predicate Delivered(l: Layout, dst: seq<int>, src: seq<int>, rows: seq<seq<nat>>, pos: seq<nat>, e: nat)
    requires l.Valid() && e < |rows| == |pos|
  {
    Stores(l, pos, e) ==> Paged(l, rows, pos, e) && HoldsElement(l, dst, src, SlotOf(l, rows, pos, e), e)
  }

  /** A cell in no storing instance's slot. */
  ghost predicate Untouched(l: Layout, rows: seq<seq<nat>>, pos: seq<nat>, n: nat, x: int)
    requires l.Valid() && n <= |rows| == |pos|
  {
    forall e: nat {:trigger Paged(l, rows, pos, e)} :: e < n && Stores(l, pos, e) && Paged(l, rows, pos, e) ==>
      x < SlotOf(l, rows, pos, e) * l.dstStride || x >= SlotOf(l, rows, pos, e) * l.dstStride + l.elemDim
  }

  /** The whole grid: the first n elements (the actual batch) reach their slots and nothing else changes. */
  method Copy(l: Layout, src: array<int>, dst: array<int>, rows: seq<seq<nat>>, pos: seq<nat>, n: nat)
    requires l.Valid() && src != dst && n <= |rows| == |pos| && |pos| * l.elemDim <= src.Length
    requires forall e: nat {:trigger Fits(l, rows, pos, dst.Length, e)} :: e < n ==> Fits(l, rows, pos, dst.Length, e)
    requires forall e: nat, f: nat {:trigger Distinct(l, rows, pos, e, f)} ::
      e < n && f < n ==> Distinct(l, rows, pos, e, f)
    modifies dst
    ensures forall e: nat {:trigger Delivered(l, dst[..], src[..], rows, pos, e)} ::
      e < n ==> Delivered(l, dst[..], src[..], rows, pos, e)
    ensures forall x {:trigger dst[x]} :: 0 <= x < dst.Length && Untouched(l, rows, pos, n, x) ==> dst[x] == old(dst[x])
  {
    for e := 0 to n
      invariant forall f: nat {:trigger Delivered(l, dst[..], src[..], rows, pos, f)} ::
        f < e ==> Delivered(l, dst[..], src[..], rows, pos, f)
      invariant forall x {:trigger dst[x]} ::
        0 <= x < dst.Length && Untouched(l, rows, pos, n, x) ==> dst[x] == old(dst[x])
    {
      MulMono(e + 1, |pos|, l.elemDim); Distribute(e, 1, l.elemDim);
      assert Fits(l, rows, pos, dst.Length, e);
      ghost var before := dst[..];
      Instance(l, src, dst, rows, pos, e);
      if Stores(l, pos, e) {
        assert Paged(l, rows, pos, e);
        ghost var to := SlotOf(l, rows, pos, e);
        Stored(l, before, dst[..], src[..], to, e);
        forall f: nat | f < e ensures Delivered(l, dst[..], src[..], rows, pos, f) {
          assert Delivered(l, before, src[..], rows, pos, f) && Distinct(l, rows, pos, e, f);
          if Stores(l, pos, f) { Survives(l, before, dst[..], src[..], SlotOf(l, rows, pos, f), f, to); }
        }
      }
    }
  }

  lemma Stored(l: Layout, before: seq<int>, after: seq<int>, src: seq<int>, to: nat, e: nat)
    requires l.Valid() && to * l.dstStride + l.elemDim <= |before| && e * l.elemDim + l.elemDim <= |src|
    requires var b, d := to * l.dstStride, l.elemDim; after == before[..b] + src[e * d..e * d + d] + before[b + d..]
    ensures |after| == |before| && HoldsElement(l, after, src, to, e)
    ensures after[..to * l.dstStride] == before[..to * l.dstStride]
    ensures after[to * l.dstStride + l.elemDim..] == before[to * l.dstStride + l.elemDim..]
  {
  }

  /** With one shard, the slot is the one the scheduler's addressing assumes. */
  lemma SchedulerSlot(row: seq<nat>, p: nat, pageLen: nat)
    requires pageLen > 0 && 0 <= p / pageLen < |row|
    ensures 0 <= p / 1 / pageLen < |row| && Kv.Slot(row, p, pageLen) == WriterSlot(row, p, pageLen, 1)
  {
    assert p / 1 == p;
  }
}
