/** The transit buffer a stream's peer data passes through on its way to a
    reader. It works like the input stream's buffer, but starts in a third
    mode, `NONE`, has no closed state, and clamps bulk reads differently. */
module TransitBuffers {
  import opened Bytes
  import opened Outcomes
  import opened Buffers

  /** The count `read(b, off, len)` settles on as written: the request is
      raised to what is buffered, never lowered. */
  function ReadCountAsWritten(len: int, remaining: int): (n: int)
    ensures n >= len && n >= remaining
    ensures n == len || n == remaining
  {
    if len < remaining then remaining else len
  }

  /** The written clamp agrees with the intended one only when the request
      is exactly the buffered amount; otherwise it overshoots one of them. */
  lemma ClampsAgreeOnlyOnExactRequests(len: int, remaining: int)
    ensures ReadCountAsWritten(len, remaining) == Clamp(len, remaining) <==> len == remaining
    ensures len < remaining ==> ReadCountAsWritten(len, remaining) > len
    ensures len > remaining ==> ReadCountAsWritten(len, remaining) > remaining
  {
  }

  /** Asking for one byte of four hands out all four; asking for eight of
      four asks the buffer for more than it holds. */
  lemma ClampCounterexamples()
    ensures ReadCountAsWritten(1, 4) == 4 && Clamp(1, 4) == 1
    ensures ReadCountAsWritten(8, 4) == 8 && Clamp(8, 4) == 4
  {
  }

  class StreamTransitBuffer {
    var mode: BufferMode
    const buf: ByteBuffer
    var available: int
    /** The free-notification queue, oldest first. */
    var freeNotifications: seq<int>
    /** The bytes the reader has taken, and the bytes delivered and not yet
        read, both oldest first. */
    ghost var consumed: seq<Byte>
    ghost var held: seq<Byte>
    /** Set once the first write has compacted the fresh buffer: its write
        position then sits at the end of the array with nothing held. */
    ghost var jammed: bool

    /** `held` is where the current mode says it is: behind `position`
        while writing (nothing in NONE), between `position` and `limit`
        while reading. */
    ghost predicate Holds()
      reads this, buf, buf.hb
      requires buf.Valid()
    {
      if mode == READ then
        |held| == buf.limit - buf.position &&
        forall i :: 0 <= i < |held| ==> held[i] == buf.hb[buf.position + i]
      else
        |held| == buf.position &&
        forall i :: 0 <= i < |held| ==> held[i] == buf.hb[i]
    }

    ghost predicate Valid()
      reads this, buf, buf.hb
    {
      buf.Valid() &&
      (mode == NONE ==> buf.position == 0 && buf.limit == buf.hb.Length && !jammed) &&
      (mode == WRITE ==> buf.limit == buf.hb.Length) &&
      (jammed ==> mode == WRITE && buf.position == buf.hb.Length && held == []) &&
      (!jammed ==> Holds()) &&
      available == |held| &&
      Sum(freeNotifications) == |consumed|
    }

    constructor(capacity: nat)
      ensures Valid() && fresh(buf) && fresh(buf.hb) && buf.hb.Length == capacity
      ensures mode == NONE && !jammed && available == 0
      ensures consumed == [] && held == [] && freeNotifications == []
    {
      mode := NONE;
      buf := new ByteBuffer.Allocate(capacity);
      available := 0;
      freeNotifications := [];
      consumed := [];
      held := [];
      jammed := false;
    }

    /** `writeFromPeer` as written: any mode but WRITE is left through
        `compact`, including the initial NONE, where compacting the fresh
        buffer leaves no room at all. The payload is then copied in at the
        write position; a copy past the end of the array throws. */
    method WriteFromPeer(incoming: seq<Byte>) returns (r: Result<()>)
      requires Valid() && available + |incoming| <= buf.hb.Length
      modifies this, buf, buf.hb
      ensures Valid() && available == |held|
      ensures consumed == old(consumed) && freeNotifications == old(freeNotifications)
      ensures jammed <==> old(jammed) || old(mode) == NONE
      ensures r.Ok? <==> !jammed || incoming == []
      ensures r.Thrown? ==> r.exc == IndexOutOfBounds && held == old(held)
      ensures r.Ok? ==> held == old(held) + incoming
    {
      if mode != WRITE {
        if mode == NONE {
          jammed := true;
        }
        mode := WRITE;
        buf.Compact();
      }
      if buf.position + |incoming| > buf.hb.Length {
        return Thrown(IndexOutOfBounds);
      }
      buf.PutSeq(incoming);
      held := held + incoming;
      available := available + |incoming|;
      r := Ok(());
    }

    /** `writeFromPeer` with NONE treated as an empty WRITE buffer: only a
        READ buffer is compacted, and the payload always fits. */
    method WriteFromPeerIntended(incoming: seq<Byte>)
      requires Valid() && !jammed && available + |incoming| <= buf.hb.Length
      modifies this, buf, buf.hb
      ensures Valid() && !jammed && available == |held|
      ensures consumed == old(consumed) && freeNotifications == old(freeNotifications)
      ensures held == old(held) + incoming
    {
      if mode == READ {
        buf.Compact();
      }
      mode := WRITE;
      buf.PutSeq(incoming);
      held := held + incoming;
      available := available + |incoming|;
    }

    /** `read()`: the oldest byte, widened from Java's signed `byte`. The
        wait for data is the precondition. */
    method Read() returns (r: int)
      requires Valid() && available >= 1
      modifies this, buf
      ensures Valid() && available == |held|
      ensures r == SignExtend(old(held)[0]) as int
      ensures consumed == old(consumed) + [old(held)[0]] && held == old(held)[1..]
      ensures freeNotifications == old(freeNotifications) + [1]
    {
      TurnToRead();
      var b := buf.Get();
      held := held[1..];
      available := available - 1;
      SumAppend(freeNotifications, 1);
      freeNotifications := freeNotifications + [1];
      consumed := consumed + [b];
      r := SignExtend(b) as int;
    }

    /** `read(b, off, len)` as written: the count is raised to what is
        buffered, so a successful read always drains the buffer, and a
        request beyond it underflows. */
    method ReadInto(b: array?<Byte>, off: int, len: int) returns (r: Result<int>)
      requires Valid() && available >= 1 && b != buf.hb
      modifies this, buf, b
      ensures Valid() && available == |held|
      ensures r.Thrown? ==> consumed == old(consumed) && held == old(held) &&
                            freeNotifications == old(freeNotifications) &&
                            (b != null ==> b[..] == old(b[..]))
      ensures b == null ==> r == Thrown(NullPointer)
      ensures b != null ==>
                (r.Ok? <==> 0 <= off && len <= old(available) && off + old(available) <= b.Length) &&
                (r == Thrown(BufferUnderflow) <==>
                   0 <= off && len > old(available) && off + len <= b.Length)
      ensures r.Ok? ==> b != null && r.value == old(available) && held == [] &&
                        (forall k :: off <= k < off + r.value ==> b[k] == old(held)[k - off]) &&
                        (forall k :: 0 <= k < b.Length && !(off <= k < off + r.value) ==> b[k] == old(b[k])) &&
                        consumed == old(consumed) + old(held) &&
                        freeNotifications == old(freeNotifications) + [r.value]
    {
      TurnToRead();
      var n := ReadCountAsWritten(len, buf.limit - buf.position);
      if b == null {
        return Thrown(NullPointer);
      }
      if off < 0 || n < 0 || off + n > b.Length {
        return Thrown(IndexOutOfBounds);
      }
      if n > buf.limit - buf.position {
        return Thrown(BufferUnderflow);
      }
      buf.GetInto(b, off, n);
      assert held[..n] == held;
      consumed := consumed + held;
      held := [];
      available := 0;
      SumAppend(freeNotifications, n);
      freeNotifications := freeNotifications + [n];
      r := Ok(n);
    }

    /** Switches to reading (`flip`) unless already reading; with data
        buffered the buffer is never in NONE or jammed. */
    method TurnToRead()
      requires Valid() && available >= 1
      modifies this, buf
      ensures Valid() && mode == READ && held == old(held) && available == old(available)
      ensures consumed == old(consumed)
      ensures freeNotifications == old(freeNotifications) && jammed == old(jammed)
    {
      if mode != READ {
        mode := READ;
        buf.Flip();
      }
    }

    /** `available()`: the unread byte count. */
    method Available() returns (r: int)
      requires Valid()
      ensures r == |held| && r <= buf.hb.Length
    {
      r := available;
    }
  }

  /** A fresh transit buffer never accepts data: the first write compacts
      it into a full buffer and every later non-empty write finds no room. */
  method FreshBufferJams() returns (first: Result<()>, second: Result<()>, avail: int)
    ensures first == Thrown(IndexOutOfBounds) && second == Thrown(IndexOutOfBounds) && avail == 0
  {
    var t := new StreamTransitBuffer(16);
    first := t.WriteFromPeer([1, 2, 3]);
    second := t.WriteFromPeer([4]);
    avail := t.Available();
  }

  /** With NONE read as an empty write buffer the same writes are delivered
      in order. */
  method FreshBufferIntended() returns (got: int, avail: int)
    ensures got == 1 && avail == 3
  {
    var t := new StreamTransitBuffer(16);
    t.WriteFromPeerIntended([1, 2, 3]);
    got := t.Read();
    t.WriteFromPeerIntended([4]);
    avail := t.Available();
  }

  /** Asking for one byte of four takes all four. */
  method OverReadScenario() returns (r: Result<int>, out: seq<Byte>)
    ensures r == Ok(4) && out == [1, 2, 3, 4, 0, 0]
  {
    var t := new StreamTransitBuffer(16);
    t.WriteFromPeerIntended([1, 2, 3, 4]);
    var b := new Byte[6](_ => 0);
    r := t.ReadInto(b, 0, 1);
    out := b[..];
  }

  /** Asking for more than is buffered underflows and leaves the data in
      place. */
  method UnderflowScenario() returns (r: Result<int>, avail: int)
    ensures r == Thrown(BufferUnderflow) && avail == 4
  {
    var t := new StreamTransitBuffer(16);
    t.WriteFromPeerIntended([1, 2, 3, 4]);
    var b := new Byte[8](_ => 0);
    r := t.ReadInto(b, 0, 8);
    avail := t.Available();
  }
}
