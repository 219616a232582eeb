/** WsMuxMessageBroker: the plain receive-side broker. Every message from the
    WebSocket is stamped and added to one priority queue. */
module MuxBroker {
  import opened Bytes
  import opened Envelope
  import opened Outcomes

  class WsMuxMessageBroker {
    var rcvQueue: seq<Entry>
    var lastMessageTime: int
    var sequence: int

    ghost predicate Valid()
      reads this
    {
      Sorted(rcvQueue)
    }

    constructor ()
      ensures Valid() && rcvQueue == [] && lastMessageTime == 0 && sequence == 0
    {
      rcvQueue, lastMessageTime, sequence := [], 0, 0;
    }

    /** `onMessage`: advances the counters, then adds exactly one entry whose
        priority is byte 0 of the message read as a signed Java byte. A
        message without a byte 0 throws after the counters have moved. */
    method OnMessage(now: int, buffer: seq<Byte>) returns (r: Result<()>)
      requires Valid()
      modifies this
      ensures Valid()
      ensures Stamp(lastMessageTime, sequence) == NextStamp(Stamp(old(lastMessageTime), old(sequence)), now)
      ensures r.Ok? <==> |buffer| > 0
      ensures r.Thrown? ==> r.exc == IndexOutOfBounds && rcvQueue == old(rcvQueue)
      ensures r.Ok? ==> rcvQueue == Insert(old(rcvQueue), Entry(SignExtend(buffer[0]), now, sequence, buffer))
    {
      if now == lastMessageTime {
        sequence := sequence + 1;
      } else {
        lastMessageTime := now;
        sequence := 0;
      }
      if |buffer| == 0 {
        return Thrown(IndexOutOfBounds);
      }
      var e := Entry(SignExtend(buffer[0]), now, sequence, buffer);
      InsertKeepsSorted(rcvQueue, e);
      rcvQueue := Insert(rcvQueue, e);
      r := Ok(());
    }

    /** `getRxQueue().poll()`: removes and returns a minimum entry, if any. */
    method Poll() returns (e: Option<Entry>)
      requires Valid()
      modifies this
      ensures Valid()
      ensures old(rcvQueue) == [] ==> e == None && rcvQueue == []
      ensures old(rcvQueue) != [] ==>
                e == Some(old(rcvQueue[0])) && rcvQueue == old(rcvQueue[1..]) &&
                forall x :: x in old(rcvQueue) ==> CompareTo(e.value, x) <= 0
      ensures lastMessageTime == old(lastMessageTime) && sequence == old(sequence)
    {
      if rcvQueue == [] {
        return None;
      }
      forall x | x in rcvQueue ensures CompareTo(rcvQueue[0], x) <= 0 {
        HeadIsMinimum(rcvQueue, x);
      }
      e := Some(rcvQueue[0]);
      rcvQueue := rcvQueue[1..];
    }
  }
}
