/** WsPriorityMessageHandler: stamps received and outgoing messages into two
    priority queues, refuses sends while draining, and runs a sender step that
    hands queued messages to the WebSocket session. The session is represented
    by `wire`, the messages handed to `session.send`, in order. */
module PriorityHandler {
  import opened Bytes
  import opened Envelope
  import opened Outcomes

  /** The one-byte command `[0]` enqueued at priority 0 by `onClose` (on the
      receive queue) and by `drainTxQueue` (on the transmit queue). */
  function Sentinel(now: int): Entry
  {
    Entry(0, now, 0, [0])
  }

  /** The sentinel sorts ahead of every user priority 1..127. */
  lemma SentinelSortsFirst(now: int, e: Entry)
    requires e.priority >= 1
    ensures CompareTo(Sentinel(now), e) == -1
  {
    PriorityDecides(Sentinel(now), e);
  }

  /** An entry whose wire priority is 128..255 (a negative signed byte)
      still sorts ahead of the sentinel. */
  lemma NegativePrioritySortsBeforeSentinel(now: int, e: Entry)
    requires e.priority < 0
    ensures CompareTo(e, Sentinel(now)) == -1
  {
    PriorityDecides(e, Sentinel(now));
  }

  /** The payloads of a run of entries, in queue order. */
  function Messages(q: seq<Entry>): (ms: seq<seq<Byte>>)
    ensures |ms| == |q|
    ensures forall i :: 0 <= i < |q| ==> ms[i] == q[i].message
  {
    seq(|q|, i requires 0 <= i < |q| => q[i].message)
  }

  lemma MessagesAppend(q: seq<Entry>, e: Entry)
    ensures Messages(q + [e]) == Messages(q) + [e.message]
  {
  }

  class WsPriorityMessageHandler {
    var rxQueue: seq<Entry>
    var lastRxMessageTime: int
    var rxSequence: int
    var txQueue: seq<Entry>
    var lastTxMessageTime: int
    var txSequence: int
    var draining: bool
    /** `onOpen` has run, so the `txStopped` future exists. */
    var isOpen: bool
    /** The transmit-sender thread is alive (started by `onOpen`, interrupted by `onClose`). */
    var senderRunning: bool
    /** The `txStopped` future has been completed by the sender. */
    var txStopped: bool
    /** Messages handed to the WebSocket session, in order. */
    var wire: seq<seq<Byte>>

    ghost predicate Valid()
      reads this
    {
      Sorted(rxQueue) && Sorted(txQueue)
    }

    constructor ()
      ensures Valid()
      ensures rxQueue == [] && txQueue == [] && wire == []
      ensures lastRxMessageTime == 0 && rxSequence == 0
      ensures lastTxMessageTime == 0 && txSequence == 0
      ensures !draining && !isOpen && !senderRunning && !txStopped
    {
      rxQueue, txQueue, wire := [], [], [];
      lastRxMessageTime, rxSequence := 0, 0;
      lastTxMessageTime, txSequence := 0, 0;
      draining, isOpen, senderRunning, txStopped := false, false, false, false;
    }

    /** `onOpen`: a fresh `txStopped` future and a running sender. */
    method OnOpen()
      requires Valid()
      modifies this
      ensures Valid() && isOpen && senderRunning && !txStopped
      ensures rxQueue == old(rxQueue) && txQueue == old(txQueue) && wire == old(wire)
      ensures draining == old(draining)
      ensures lastRxMessageTime == old(lastRxMessageTime) && rxSequence == old(rxSequence)
      ensures lastTxMessageTime == old(lastTxMessageTime) && txSequence == old(txSequence)
    {
      isOpen, senderRunning, txStopped := true, true, false;
    }

    /** `onClose`: stops the sender and enqueues exactly one priority-0
        sentinel on the receive queue, stamped with the clock and sequence 0. */
    method OnClose(now: int)
      requires Valid()
      modifies this
      ensures Valid() && !senderRunning
      ensures rxQueue == Insert(old(rxQueue), Sentinel(now))
      ensures forall e :: e in old(rxQueue) && e.priority >= 1 ==> CompareTo(Sentinel(now), e) < 0
      ensures forall e :: e in old(rxQueue) && e.priority < 0 ==> CompareTo(e, Sentinel(now)) < 0
      ensures txQueue == old(txQueue) && wire == old(wire)
      ensures draining == old(draining) && isOpen == old(isOpen) && txStopped == old(txStopped)
      ensures lastRxMessageTime == old(lastRxMessageTime) && rxSequence == old(rxSequence)
      ensures lastTxMessageTime == old(lastTxMessageTime) && txSequence == old(txSequence)
    {
      senderRunning := false;
      forall e | e in rxQueue && e.priority >= 1 ensures CompareTo(Sentinel(now), e) < 0 {
        SentinelSortsFirst(now, e);
      }
      forall e | e in rxQueue && e.priority < 0 ensures CompareTo(e, Sentinel(now)) < 0 {
        NegativePrioritySortsBeforeSentinel(now, e);
      }
      InsertKeepsSorted(rxQueue, Sentinel(now));
      rxQueue := Insert(rxQueue, Sentinel(now));
    }

    /** `onMessage`: advances the receive counters, then adds exactly one
        entry carrying byte 0 as its priority and the clock time. A message
        without a byte 0 throws after the counters have moved. */
    method OnMessage(now: int, buffer: seq<Byte>) returns (r: Result<()>)
      requires Valid()
      modifies this
      ensures Valid()
      ensures Stamp(lastRxMessageTime, rxSequence) ==
              NextStamp(Stamp(old(lastRxMessageTime), old(rxSequence)), now)
      ensures r.Ok? <==> |buffer| > 0
      ensures r.Thrown? ==> r.exc == IndexOutOfBounds && rxQueue == old(rxQueue)
      ensures r.Ok? ==> rxQueue == Insert(old(rxQueue), Entry(SignExtend(buffer[0]), now, rxSequence, buffer))
      ensures txQueue == old(txQueue) && wire == old(wire)
      ensures draining == old(draining) && isOpen == old(isOpen)
      ensures senderRunning == old(senderRunning) && txStopped == old(txStopped)
      ensures lastTxMessageTime == old(lastTxMessageTime) && txSequence == old(txSequence)
    {
      if now == lastRxMessageTime {
        rxSequence := rxSequence + 1;
      } else {
        lastRxMessageTime := now;
        rxSequence := 0;
      }
      if |buffer| == 0 {
        return Thrown(IndexOutOfBounds);
      }
      InsertKeepsSorted(rxQueue, Entry(SignExtend(buffer[0]), now, rxSequence, buffer));
      rxQueue := Insert(rxQueue, Entry(SignExtend(buffer[0]), now, rxSequence, buffer));
      r := Ok(());
    }

    /** `sendMessage`: false while draining or for a priority-0 message, with
        nothing changed; otherwise advances the transmit counters (kept apart
        from the receive ones), adds exactly one entry and answers true. */
    method SendMessage(now: int, buffer: seq<Byte>) returns (r: Result<bool>)
      requires Valid()
      modifies this
      ensures Valid()
      ensures old(draining) ==> r == Ok(false)
      ensures !old(draining) && |buffer| == 0 ==> r == Thrown(IndexOutOfBounds)
      ensures !old(draining) && |buffer| > 0 && buffer[0] == 0 ==> r == Ok(false)
      ensures r != Ok(true) ==>
                txQueue == old(txQueue) && lastTxMessageTime == old(lastTxMessageTime) && txSequence == old(txSequence)
      ensures !old(draining) && |buffer| > 0 && buffer[0] != 0 ==>
                r == Ok(true) &&
                Stamp(lastTxMessageTime, txSequence) ==
                  NextStamp(Stamp(old(lastTxMessageTime), old(txSequence)), now) &&
                txQueue == Insert(old(txQueue), Entry(SignExtend(buffer[0]), now, txSequence, buffer))
      ensures rxQueue == old(rxQueue) && wire == old(wire)
      ensures draining == old(draining) && isOpen == old(isOpen)
      ensures senderRunning == old(senderRunning) && txStopped == old(txStopped)
      ensures lastRxMessageTime == old(lastRxMessageTime) && rxSequence == old(rxSequence)
    {
      if draining {
        return Ok(false);
      }
      if |buffer| == 0 {
        return Thrown(IndexOutOfBounds);
      }
      if buffer[0] == 0 {
        return Ok(false);
      }
      if now == lastTxMessageTime {
        txSequence := txSequence + 1;
      } else {
        lastTxMessageTime := now;
        txSequence := 0;
      }
      InsertKeepsSorted(txQueue, Entry(SignExtend(buffer[0]), now, txSequence, buffer));
      txQueue := Insert(txQueue, Entry(SignExtend(buffer[0]), now, txSequence, buffer));
      r := Ok(true);
    }

    /** `drainTxQueue` up to its wait: refuses further sends from now on and,
        once the sender exists, enqueues the priority-0 drain sentinel. */
    method DrainTxQueue(now: int)
      requires Valid()
      modifies this
      ensures Valid() && draining
      ensures txQueue == if old(isOpen) then Insert(old(txQueue), Sentinel(now)) else old(txQueue)
      ensures rxQueue == old(rxQueue) && wire == old(wire)
      ensures isOpen == old(isOpen) && senderRunning == old(senderRunning) && txStopped == old(txStopped)
      ensures lastRxMessageTime == old(lastRxMessageTime) && rxSequence == old(rxSequence)
      ensures lastTxMessageTime == old(lastTxMessageTime) && txSequence == old(txSequence)
    {
      draining := true;
      if isOpen {
        InsertKeepsSorted(txQueue, Sentinel(now));
        txQueue := Insert(txQueue, Sentinel(now));
      }
    }

    /** One pass of the sender loop: takes the head of the transmit queue. A
        priority-0 entry makes it send every remaining queued message, leave
        the queue empty and complete `txStopped`; any other entry is sent
        alone. */
    method TxSenderStep()
      requires Valid() && senderRunning && |txQueue| > 0
      modifies this
      ensures Valid()
      ensures old(txQueue[0].priority) == 0 ==>
                wire == old(wire) + Messages(old(txQueue[1..])) && txQueue == [] && txStopped
      ensures old(txQueue[0].priority) != 0 ==>
                wire == old(wire) + [old(txQueue[0].message)] && txQueue == old(txQueue[1..]) &&
                txStopped == old(txStopped)
      ensures rxQueue == old(rxQueue)
      ensures draining == old(draining) && isOpen == old(isOpen) && senderRunning == old(senderRunning)
      ensures lastRxMessageTime == old(lastRxMessageTime) && rxSequence == old(rxSequence)
      ensures lastTxMessageTime == old(lastTxMessageTime) && txSequence == old(txSequence)
    {
      var qe := txQueue[0];
      txQueue := txQueue[1..];
      if qe.priority == 0 {
        ghost var rest := txQueue;
        ghost var i := 0;
        while txQueue != []
          invariant 0 <= i <= |rest| && txQueue == rest[i..]
          invariant wire == old(wire) + Messages(rest[..i])
          invariant rxQueue == old(rxQueue) && draining == old(draining)
          invariant isOpen == old(isOpen) && senderRunning == old(senderRunning)
          invariant lastRxMessageTime == old(lastRxMessageTime) && rxSequence == old(rxSequence)
          invariant lastTxMessageTime == old(lastTxMessageTime) && txSequence == old(txSequence)
          decreases |txQueue|
        {
          var de := txQueue[0];
          assert rest[..i + 1] == rest[..i] + [de];
          MessagesAppend(rest[..i], de);
          assert rest[i + 1..] == txQueue[1..];
          txQueue := txQueue[1..];
          wire := wire + [de.message];
          i := i + 1;
        }
        assert rest[..i] == rest;
        txStopped := true;
      } else {
        wire := wire + [qe.message];
      }
    }

    /** `getRxQueue().poll()`: removes and returns a minimum entry, if any. */
    method PollRx() returns (e: Option<Entry>)
      requires Valid()
      modifies this
      ensures Valid()
      ensures old(rxQueue) == [] ==> e == None && rxQueue == []
      ensures old(rxQueue) != [] ==>
                e == Some(old(rxQueue[0])) && rxQueue == old(rxQueue[1..]) &&
                forall x :: x in old(rxQueue) ==> CompareTo(e.value, x) <= 0
      ensures txQueue == old(txQueue) && wire == old(wire)
      ensures draining == old(draining) && isOpen == old(isOpen)
      ensures senderRunning == old(senderRunning) && txStopped == old(txStopped)
      ensures lastRxMessageTime == old(lastRxMessageTime) && rxSequence == old(rxSequence)
      ensures lastTxMessageTime == old(lastTxMessageTime) && txSequence == old(txSequence)
    {
      if rxQueue == [] {
        return None;
      }
      forall x | x in rxQueue ensures CompareTo(rxQueue[0], x) <= 0 {
        HeadIsMinimum(rxQueue, x);
      }
      e := Some(rxQueue[0]);
      rxQueue := rxQueue[1..];
    }

    /** `getTxQueue().poll()`: removes and returns a minimum entry, if any. */
    method PollTx() returns (e: Option<Entry>)
      requires Valid()
      modifies this
      ensures Valid()
      ensures old(txQueue) == [] ==> e == None && txQueue == []
      ensures old(txQueue) != [] ==>
                e == Some(old(txQueue[0])) && txQueue == old(txQueue[1..]) &&
                forall x :: x in old(txQueue) ==> CompareTo(e.value, x) <= 0
      ensures rxQueue == old(rxQueue) && wire == old(wire)
      ensures draining == old(draining) && isOpen == old(isOpen)
      ensures senderRunning == old(senderRunning) && txStopped == old(txStopped)
      ensures lastRxMessageTime == old(lastRxMessageTime) && rxSequence == old(rxSequence)
      ensures lastTxMessageTime == old(lastTxMessageTime) && txSequence == old(txSequence)
    {
      if txQueue == [] {
        return None;
      }
      forall x | x in txQueue ensures CompareTo(txQueue[0], x) <= 0 {
        HeadIsMinimum(txQueue, x);
      }
      e := Some(txQueue[0]);
      txQueue := txQueue[1..];
    }
  }

  /** The receive-order scenario of the handler's tests: with the clock fixed
      at the epoch (time 0, the counters' initial value) two priority-3
      messages arrive, then priority 1 one millisecond later, then priority 2
      a millisecond after that. The stamps start at sequence 1 because the
      clock equals the initial `lastRxMessageTime`, and the queue polls back
      priority 1, then 2, then the two priority-3 messages in arrival order. */
  lemma ComplexOrderScenario(m1: seq<Byte>, m2: seq<Byte>, m3: seq<Byte>, m4: seq<Byte>)
    ensures StampSeries(Stamp(0, 0), [0, 0, 1, 2]) == [Stamp(0, 1), Stamp(0, 2), Stamp(1, 0), Stamp(2, 0)]
    ensures var e1, e2, e3, e4 := Entry(3, 0, 1, m1), Entry(3, 0, 2, m2), Entry(1, 1, 0, m3), Entry(2, 2, 0, m4);
            InsertAll([], [e1, e2, e3, e4]) == [e3, e4, e1, e2]
  {
    ScenarioStamps();
    var e1, e2, e3, e4 := Entry(3, 0, 1, m1), Entry(3, 0, 2, m2), Entry(1, 1, 0, m3), Entry(2, 2, 0, m4);
    InterleavedOrder(e1, e2, e3, e4);
  }

  lemma ScenarioStamps()
    ensures StampSeries(Stamp(0, 0), [0, 0, 1, 2]) == [Stamp(0, 1), Stamp(0, 2), Stamp(1, 0), Stamp(2, 0)]
  {
    var ts: seq<int> := [0, 0, 1, 2];
    assert ts[1..] == [0, 1, 2] && ts[1..][1..] == [1, 2] && ts[1..][1..][1..] == [2];
    assert ts[1..][1..][1..][1..] == [];
    assert StampSeries(Stamp(1, 0), [2]) == [Stamp(2, 0)];
    assert StampSeries(Stamp(0, 2), [1, 2]) == [Stamp(1, 0), Stamp(2, 0)];
    assert StampSeries(Stamp(0, 1), [0, 1, 2]) == [Stamp(0, 2), Stamp(1, 0), Stamp(2, 0)];
  }

  /** Two late arrivals that sort ahead of two earlier ones end up in front of
      them, each pair keeping its own order. */
  lemma InterleavedOrder(e1: Entry, e2: Entry, e3: Entry, e4: Entry)
    requires CompareTo(e3, e4) < 0 && CompareTo(e4, e1) < 0 && CompareTo(e1, e2) < 0
    ensures InsertAll([], [e1, e2, e3, e4]) == [e3, e4, e1, e2]
  {
    CompareAntisymmetric(e1, e2);
    CompareAntisymmetric(e3, e4);
    CompareTransitive(e3, e4, e1);
    InsertTwoInOrder(e1, e2);
    InsertAhead([e1, e2], e3);
    InsertSecond(e3, [e1, e2], e4);
    InsertAllSteps(e1, e2, e3, e4);
  }

  /** Two entries added in order stay in that order. */
  lemma InsertTwoInOrder(e1: Entry, e2: Entry)
    requires CompareTo(e2, e1) >= 0
    ensures Insert(Insert([], e1), e2) == [e1, e2]
  {
    assert Insert([e1], e2) == [e1] + Insert([], e2);
  }

  /** An entry sorting ahead of the head goes in front. */
  lemma InsertAhead(q: seq<Entry>, e: Entry)
    requires q != [] && CompareTo(e, q[0]) < 0
    ensures Insert(q, e) == [e] + q
  {
  }

  /** An entry sorting after the head but ahead of the rest goes second. */
  lemma InsertSecond(h: Entry, q: seq<Entry>, e: Entry)
    requires q != [] && CompareTo(e, h) >= 0 && CompareTo(e, q[0]) < 0
    ensures Insert([h] + q, e) == [h, e] + q
  {
    assert ([h] + q)[1..] == q;
  }

  lemma InsertAllSteps(e1: Entry, e2: Entry, e3: Entry, e4: Entry)
    ensures InsertAll([], [e1, e2, e3, e4]) ==
            Insert(Insert(Insert(Insert([], e1), e2), e3), e4)
  {
    var xs := [e1, e2, e3, e4];
    var q1 := Insert([], e1);
    var q2 := Insert(q1, e2);
    var q3 := Insert(q2, e3);
    var q4 := Insert(q3, e4);
    assert xs[1..] == [e2, e3, e4] && xs[1..][1..] == [e3, e4] && xs[1..][1..][1..] == [e4];
    assert [e4][1..] == [];
    assert InsertAll(q3, [e4]) == InsertAll(q4, []) == q4;
    assert InsertAll(q2, [e3, e4]) == InsertAll(q3, [e4]);
    assert InsertAll(q1, [e2, e3, e4]) == InsertAll(q2, [e3, e4]);
    assert InsertAll([], xs) == InsertAll(q1, [e2, e3, e4]);
  }
}
