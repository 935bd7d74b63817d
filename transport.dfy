/**
 * The byte transport both drivers talk through. In the driver it is a pair
 * of pure virtual member functions (one byte out, one byte in or "nothing
 * available") that a derived class implements over a serial port. Here it is
 * one object: a log of every byte sent and the bytes that are waiting to be
 * received.
 */
module Transport {

  class Channel {
    /** Every byte handed to the transport so far, oldest first. */
    ghost var sent: seq<bv8>
    /** Bytes that have arrived and not yet been read, oldest first. */
    var incoming: seq<bv8>

    constructor (input: seq<bv8>)
      ensures sent == [] && incoming == input
    {
      sent := [];
      incoming := input;
    }

    /** Transmits one byte. */
    method Send(b: bv8)
      modifies this
      ensures sent == old(sent) + [b]
      ensures incoming == old(incoming)
    {
      sent := sent + [b];
    }

    /** Polls for one byte: the oldest waiting byte as 0..255, or -1 if none. */
    method Receive() returns (data: int)
      modifies this
      ensures sent == old(sent)
      ensures old(incoming) == [] ==> data == -1 && incoming == []
      ensures old(incoming) != [] ==> data == old(incoming)[0] as int && incoming == old(incoming)[1..]
    {
      if incoming == [] {
        data := -1;
      } else {
        data := incoming[0] as int;
        incoming := incoming[1..];
      }
    }
  }

}
