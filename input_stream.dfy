/** The receiving side of a stream: bytes from the peer are appended to a
    transit buffer and handed out, in arrival order, to the reader; each
    read reports on a queue how many bytes it freed. */
module InputStreams {
  import opened Bytes
  import opened Outcomes
  import opened Buffers

  /** A DATA payload as the stream receives it: `size()` is the byte count. */
  datatype TransmitData = TransmitData(bytes: seq<Byte>)

  class StreamInputStream {
    var mode: BufferMode
    const buf: ByteBuffer
    var available: int
    var closed: bool
    /** The free-notification queue, oldest first. */
    var freeNotifications: seq<int>
    /** The bytes the reader has taken, and the bytes delivered and not yet
        read, both oldest first. */
    ghost var consumed: seq<Byte>
    ghost var held: seq<Byte>

    /** `held` is where the current mode says it is: behind `position`
        while writing, between `position` and `limit` while reading. */
    ghost predicate Holds()
      reads this, buf, buf.hb
      requires buf.Valid()
    {
      if mode == READ then
        |held| == buf.limit - buf.position &&
        forall i :: 0 <= i < |held| ==> held[i] == buf.hb[buf.position + i]
      else
        |held| == buf.position &&
        forall i :: 0 <= i < |held| ==> held[i] == buf.hb[i]
    }

    ghost predicate Valid()
      reads this, buf, buf.hb
    {
      buf.Valid() && mode != NONE && (mode == WRITE ==> buf.limit == buf.hb.Length) &&
      Holds() && available == |held| &&
      Sum(freeNotifications) == |consumed|
    }

    constructor(capacity: nat)
      ensures Valid() && fresh(buf) && fresh(buf.hb) && buf.hb.Length == capacity
      ensures mode == WRITE && !closed && available == 0
      ensures consumed == [] && held == [] && freeNotifications == []
    {
      mode := WRITE;
      buf := new ByteBuffer.Allocate(capacity);
      available := 0;
      closed := false;
      freeNotifications := [];
      consumed := [];
      held := [];
    }

    /** `writeFromPeer`: ignored once closed; otherwise the payload goes to
        the tail. Flow control keeps the peer within the free space. */
    method WriteFromPeer(incoming: TransmitData)
      requires Valid()
      requires closed || available + |incoming.bytes| <= buf.hb.Length
      modifies this, buf, buf.hb
      ensures Valid() && closed == old(closed) && available == |held|
      ensures consumed == old(consumed) && freeNotifications == old(freeNotifications)
      ensures old(closed) ==> held == old(held)
      ensures !old(closed) ==> held == old(held) + incoming.bytes
    {
      if closed {
        return;
      }
      if mode != WRITE {
        mode := WRITE;
        buf.Compact();
      }
      buf.PutSeq(incoming.bytes);
      held := held + incoming.bytes;
      available := available + |incoming.bytes|;
    }

    /** `read()`: the oldest byte, as Java's signed `byte` widened to `int`.
        The wait for data is the precondition. */
    method Read() returns (r: Result<int>)
      requires Valid() && (closed || available >= 1)
      modifies this, buf
      ensures Valid() && closed == old(closed) && available == |held|
      ensures old(closed) ==> r == Thrown(IOException) && consumed == old(consumed) &&
                              held == old(held) && freeNotifications == old(freeNotifications)
      ensures !old(closed) ==> |old(held)| >= 1 &&
                               r == Ok(SignExtend(old(held)[0]) as int) &&
                               consumed == old(consumed) + [old(held)[0]] &&
                               held == old(held)[1..] &&
                               freeNotifications == old(freeNotifications) + [1]
    {
      if closed {
        return Thrown(IOException);
      }
      TurnToRead();
      var b := buf.Get();
      held := held[1..];
      available := available - 1;
      SumAppend(freeNotifications, 1);
      freeNotifications := freeNotifications + [1];
      consumed := consumed + [b];
      r := Ok(SignExtend(b) as int);
    }

    /** `read(b, off, len)`: copies the oldest min(len, buffered) bytes into
        `b[off..]` and returns how many. `b` is the caller's array and never
        the stream's own buffer. */
    method ReadInto(b: array?<Byte>, off: int, len: int) returns (r: Result<int>)
      requires Valid() && (closed || available >= 1) && b != buf.hb
      modifies this, buf, b
      ensures Valid() && closed == old(closed) && available == |held|
      ensures r.Thrown? ==> consumed == old(consumed) && held == old(held) &&
                            freeNotifications == old(freeNotifications) &&
                            (b != null ==> b[..] == old(b[..]))
      ensures old(closed) ==> r == Thrown(IOException)
      ensures !old(closed) && b == null ==> r == Thrown(NullPointer)
      ensures !old(closed) && b != null ==>
                var n := Clamp(len, old(available));
                (r.Ok? <==> 0 <= off && 0 <= n && off + n <= b.Length) &&
                (r.Thrown? ==> r.exc == IndexOutOfBounds) &&
                (r.Ok? ==> r.value == n &&
                           (forall k :: off <= k < off + n ==> b[k] == old(held)[k - off]) &&
                           (forall k :: 0 <= k < b.Length && !(off <= k < off + n) ==> b[k] == old(b[k])) &&
                           consumed == old(consumed) + old(held)[..n] &&
                           held == old(held)[n..] &&
                           freeNotifications == old(freeNotifications) + [n])
    {
      if closed {
        return Thrown(IOException);
      }
      TurnToRead();
      var n := Clamp(len, buf.limit - buf.position);
      if b == null {
        return Thrown(NullPointer);
      }
      if off < 0 || n < 0 || off + n > b.Length {
        return Thrown(IndexOutOfBounds);
      }
      TakeInto(b, off, n);
      r := Ok(n);
    }

    /** The copy of a bounds-checked `read(b, off, len)`: the oldest `n`
        bytes move to `b[off..off+n]` and `n` is reported freed. */
    method TakeInto(b: array<Byte>, off: nat, n: nat)
      requires Valid() && mode == READ && b != buf.hb && off + n <= b.Length && n <= |held|
      modifies this, buf, b
      ensures Valid() && closed == old(closed) && available == |held|
      ensures forall k :: off <= k < off + n ==> b[k] == old(held)[k - off]
      ensures forall k :: 0 <= k < b.Length && !(off <= k < off + n) ==> b[k] == old(b[k])
      ensures consumed == old(consumed) + old(held)[..n] && held == old(held)[n..]
      ensures freeNotifications == old(freeNotifications) + [n]
    {
      buf.GetInto(b, off, n);
      consumed := consumed + held[..n];
      held := held[n..];
      available := available - n;
      SumAppend(freeNotifications, n);
      freeNotifications := freeNotifications + [n];
    }

    /** Switches the buffer to reading (`flip`) unless it already is. */
    method TurnToRead()
      requires Valid()
      modifies this, buf
      ensures Valid() && mode == READ && held == old(held)
      ensures closed == old(closed) && available == old(available)
      ensures consumed == old(consumed) && freeNotifications == old(freeNotifications)
    {
      if mode != READ {
        mode := READ;
        buf.Flip();
      }
    }

    /** `available()`: the unread byte count, unless closed. */
    method Available() returns (r: Result<int>)
      requires Valid()
      ensures closed <==> r == Thrown(IOException)
      ensures !closed ==> r == Ok(|held|) && r.value <= buf.hb.Length
    {
      if closed {
        return Thrown(IOException);
      }
      r := Ok(available);
    }

    method Close()
      requires Valid()
      modifies this
      ensures Valid() && closed
      ensures mode == old(mode) && available == old(available) && freeNotifications == old(freeNotifications)
      ensures consumed == old(consumed) && held == old(held)
    {
      closed := true;
    }
  }

  /** Bytes leave in the order they arrived across interleaved deliveries and
      reads: the refill after the first read compacts the buffer. */
  method InterleavedDelivery() returns (first: Result<int>, second: Result<int>, left: int)
    ensures first == Ok(1) && second == Ok(2) && left == 2
  {
    var s := new StreamInputStream(8);
    s.WriteFromPeer(TransmitData([1, 2, 3]));
    first := s.Read();
    s.WriteFromPeer(TransmitData([4]));
    second := s.Read();
    left := s.available;
  }

  /** A bulk read fills only `b[off..off+n]`, with n cut down to what is
      buffered, and posts n as freed. */
  method BulkRead() returns (r: Result<int>, out: seq<Byte>, notes: seq<int>, left: Result<int>)
    ensures r == Ok(2) && out == [0, 5, 6, 0] && notes == [2] && left == Ok(0)
  {
    var s := new StreamInputStream(8);
    s.WriteFromPeer(TransmitData([5, 6]));
    var b := new Byte[4](_ => 0);
    r := s.ReadInto(b, 1, 3);
    out := b[..];
    notes := s.freeNotifications;
    left := s.Available();
  }

  /** After `close` a delivery changes nothing and every read throws. */
  method ClosedStream() returns (avail: Result<int>, one: Result<int>, many: Result<int>, left: int)
    ensures avail == Thrown(IOException) && one == Thrown(IOException) && many == Thrown(IOException)
    ensures left == 2
  {
    var s := new StreamInputStream(8);
    s.WriteFromPeer(TransmitData([7, 8]));
    s.Close();
    s.WriteFromPeer(TransmitData([9]));
    avail := s.Available();
    one := s.Read();
    many := s.ReadInto(null, 0, 1);
    left := s.available;
  }
}
