// The input queue: the packets still to come, and then one None.
module Queues {
  import opened Sched

  datatype Item = Nothing | Sentinel | Packet(req: Request)

  class PacketQueue {
    /** What will be read before the sentinel; when each arrives is not known. */
    var packets: seq<Request>
    var open: bool

    constructor (packets: seq<Request>)
      ensures this.packets == packets && open
    {
      this.packets, open := packets, true;
    }

    /** `get`; only a non-blocking call can find the queue empty. */
    method Get(block: bool) returns (r: Item)
      requires open
      modifies this
      ensures r == Nothing ==> !block && packets == old(packets) && open
      ensures r.Packet? ==> open && old(packets) == [r.req] + packets
      ensures r == Sentinel ==> old(packets) == [] && packets == [] && !open
    {
      if !block {
        if * { return Nothing; }
      }
      if packets == [] {
        open := false;
        return Sentinel;
      }
      r := Packet(packets[0]);
      packets := packets[1..];
    }
  }
}
