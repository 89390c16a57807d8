/** The shared page: four indexes, two status words and the slots. */
module SharedRing {
  import opened Word32
  import opened Handshake
  import opened Protocol
  import System

  class Page {
    var reqProd: u32
    var reqEvent: u32
    var rspProd: u32
    var rspEvent: u32
    var reqStatus: Status
    var rspStatus: Status
    const slots: array<Entry>

    ghost function View(): Shared
      reads this, slots
    {
      Shared(reqProd, reqEvent, rspProd, rspEvent, slots[..])
    }

    /** SHARED_RING_INIT on a page of n slots, whose contents stay as they were. */
    constructor (n: nat, filler: Entry)
      ensures fresh(slots) && slots.Length == n
      ensures View() == Shared(0, 1, 0, 1, seq(n, i => filler))
      ensures reqStatus == rspStatus == Running
      ensures forall pool: nat, refs, blockSize :: n > 0 ==>
                View() == System.Init(n, pool, refs, blockSize).sh.(slots := slots[..])
    {
      slots := new Entry[n](i => filler);
      reqProd, rspProd := 0, 0;
      reqEvent, rspEvent := 1, 1;
      reqStatus, rspStatus := Running, Running;
    }

    /** The handler of a ring interrupt on the request side, run without interruption, up to the waiting flag
        it has already set. */
    method LookAtRequestStatus() returns (wake: bool)
      modifies this`reqStatus
      ensures wake == (old(reqStatus) == Sleeping) && reqStatus == Running
    {
      wake := reqStatus == Sleeping;
      reqStatus := Running;
    }

    method LookAtResponseStatus() returns (wake: bool)
      modifies this`rspStatus
      ensures wake == (old(rspStatus) == Sleeping) && rspStatus == Running
    {
      wake := rspStatus == Sleeping;
      rspStatus := Running;
    }
  }
}
