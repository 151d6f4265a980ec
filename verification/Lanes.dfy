// A generation lane: a packet being answered, and the blocks of the device cache it owns.
module Lanes {
  import opened Seqs
  import opened Kv
  import opened Sched
  import ISets

  class Lane {
    const req: Request
    var tokens: seq<Token>
    var blocks: seq<nat>
    const blockset: ISets.ISet

    /** The list and the set of blocks agree. */
    ghost predicate Valid()
      reads this, blockset
    {
      blockset.Valid() && blockset.Elems() == ToSet(blocks) && NoDup(blocks)
    }

    ghost function Value(): LaneV
      reads this
    {
      LaneV(req, tokens, blocks)
    }

    /** from_pkt */
    constructor (r: Request)
      ensures Valid() && fresh(blockset) && Value() == LaneV(r, [], [])
    {
      req, tokens, blocks := r, [], [];
      blockset := new ISets.ISet();
    }

    method AddBlock(bid: nat)
      requires Valid() && bid !in blocks && bid <= 0xFFFF_FFFF
      modifies this, blockset
      ensures Valid() && Value() == old(Value()).(blocks := old(blocks) + [bid])
    {
      blockset.Add(bid);
      blocks := blocks + [bid];
    }

    /** The blocks go back to the free set. */
    method Free(freeSet: ISets.ISet)
      requires Valid() && freeSet.Valid() && freeSet != blockset
      modifies this, blockset, freeSet
      ensures Valid() && Value() == old(Value()).(blocks := [])
      ensures freeSet.Valid() && freeSet.Elems() == old(freeSet.Elems()) + ToSet(old(blocks))
    {
      freeSet.Merge(blockset);
      blockset.Clear();
      blocks := [];
    }

    /** The lane takes over the contents of bset. */
    method SetBlocks(bset: ISets.ISet)
      requires Valid() && blocks == [] && bset.Valid() && bset != blockset
      modifies this, blockset
      ensures Valid() && Value() == old(Value()).(blocks := blocks)
      ensures NoDup(blocks) && ToSet(blocks) == bset.Elems() && |blocks| == |bset.Elems()|
    {
      assert ToSet(blocks) == {};
      blockset.node := bset.node;
      blocks := bset.List();
    }
  }
}
