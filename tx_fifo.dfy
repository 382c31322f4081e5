/**
 * The TX FIFO of the WS2812 state machine as the firmware sees it through
 * its `tx` handle: a bounded queue of 32-bit words. The firmware writes at
 * the back with `tx.write`, which refuses a word when the FIFO is full; the
 * state machine's autopull takes words from the front.
 */
module Fifo {
  import opened Wrappers

  /** Depth of an RP2040 state machine's TX FIFO when it is not joined with the RX FIFO. */
  const TxDepth: nat := 4

  class TxFifo {
    /** How many words the FIFO holds at most. */
    const capacity: nat
    /** The words waiting, oldest first. */
    var queue: seq<bv32>
    /** The words the state machine has already taken, in the order taken. */
    ghost var pulled: seq<bv32>

    ghost predicate Valid()
      reads this
    {
      0 < capacity && |queue| <= capacity
    }

    /** Every word the FIFO has ever accepted, in order of acceptance. */
    ghost function Accepted(): seq<bv32>
      reads this
    {
      pulled + queue
    }

    constructor (depth: nat)
      requires 0 < depth
      ensures Valid()
      ensures capacity == depth && queue == [] && pulled == []
    {
      capacity := depth;
      queue := [];
      pulled := [];
    }

    /** Whether another word fits. */
    function HasRoom(): bool
      reads this
    {
      |queue| < capacity
    }

    /**
     * `tx.write(w)`: appends w and answers true if there is room; on a full
     * FIFO answers false and changes nothing.
     */
    method Write(w: bv32) returns (accepted: bool)
      requires Valid()
      modifies this
      ensures Valid()
      ensures accepted <==> |old(queue)| < capacity
      ensures queue == if accepted then old(queue) + [w] else old(queue)
      ensures pulled == old(pulled)
      ensures Accepted() == if accepted then old(Accepted()) + [w] else old(Accepted())
    {
      accepted := HasRoom();
      if accepted {
        queue := queue + [w];
      }
    }

    /**
     * The state machine's side: autopull takes the oldest word, if any. An
     * empty FIFO yields nothing and stays as it is.
     */
    method Pull() returns (w: Option<bv32>)
      requires Valid()
      modifies this
      ensures Valid()
      ensures old(queue) == [] ==> w == None && queue == [] && pulled == old(pulled)
      ensures old(queue) != [] ==>
                w == Some(old(queue)[0]) && queue == old(queue)[1..] && pulled == old(pulled) + [old(queue)[0]]
      ensures Accepted() == old(Accepted())
    {
      if queue == [] {
        w := None;
      } else {
        w := Some(queue[0]);
        pulled := pulled + [queue[0]];
        queue := queue[1..];
        assert pulled + queue == old(pulled) + old(queue);
      }
    }
  }
}
