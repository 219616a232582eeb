/** The sending side of a stream: the writer copies bytes into a transit
    buffer, and a sender step moves them out in `sendData` calls, never
    more than the peer has room for. The peer's room (the remote window)
    starts at 4096 bytes, shrinks by what is sent and grows by every
    buffer increment the peer announces. */
module OutputStreams {
  import opened Bytes
  import opened Outcomes
  import opened Buffers

  /** The room the peer starts with. */
  const INITIAL_REMOTE_WINDOW := 4096

  /** The chunk one pass of `write(b, off, len)` copies as written: the
      guard compares the whole length `len`, not what is left of it, with
      the free space. */
  function ChunkSizeAsWritten(len: int, transferred: int, free: int): (n: int)
    ensures n == free || n == len - transferred
    ensures len <= free ==> n == len - transferred
  {
    if len > free then free else len - transferred
  }

  /** The chunk the copy loop is meant to take: what is left of the
      request, cut down to the free space. */
  function ChunkSize(len: int, transferred: int, free: int): (n: int)
    ensures n <= len - transferred && n <= free
  {
    Clamp(len - transferred, free)
  }

  /** The written guard picks the intended chunk exactly when the whole
      request fits, or when what is left still fills the free space; in
      between it copies more than is left. */
  lemma ChunkGuardAgreesWhen(len: int, transferred: int, free: int)
    requires 0 <= transferred
    ensures ChunkSizeAsWritten(len, transferred, free) == ChunkSize(len, transferred, free)
            <==> len <= free || len - transferred >= free
    ensures len > free > len - transferred ==>
              ChunkSizeAsWritten(len, transferred, free) > len - transferred
  {
  }

  /** Ten bytes into eight bytes of space: four went in on the first pass,
      then with eight free again the guard copies eight where six are left. */
  lemma ChunkGuardCounterexample()
    ensures ChunkSizeAsWritten(10, 4, 8) == 8 && ChunkSize(10, 4, 8) == 6
  {
  }

  class StreamOutputStream {
    var mode: BufferMode
    const buf: ByteBuffer
    /** `transitAvailableToWrite` and `transitAvailableToRead`. */
    var toWrite: int
    var toRead: int
    var closed: bool
    /** `remoteFreeCapacity`: how much more the peer can take. */
    var window: int
    /** The bytes handed to `sendData`, one entry per call. */
    var sent: seq<seq<Byte>>
    /** The bytes written and not yet sent, oldest first, and every
        increment the peer announced. */
    ghost var held: seq<Byte>
    ghost var increments: seq<int>

    /** `held` is where the current mode says it is. */
    ghost predicate Holds()
      reads this, buf, buf.hb
      requires buf.Valid()
    {
      if mode == READ then
        |held| == buf.limit - buf.position &&
        forall i :: 0 <= i < |held| ==> held[i] == buf.hb[buf.position + i]
      else
        |held| == buf.position &&
        forall i :: 0 <= i < |held| ==> held[i] == buf.hb[i]
    }

    ghost predicate Valid()
      reads this, buf, buf.hb
    {
      buf.Valid() && mode != NONE && (mode == WRITE ==> buf.limit == buf.hb.Length) &&
      Holds() &&
      toRead == |held| && toWrite + toRead == buf.hb.Length && toWrite >= 0 &&
      window == INITIAL_REMOTE_WINDOW + Sum(increments) - |Flatten(sent)|
    }

    constructor(capacity: nat)
      ensures Valid() && fresh(buf) && fresh(buf.hb) && buf.hb.Length == capacity
      ensures mode == WRITE && !closed && toWrite == capacity && toRead == 0
      ensures window == INITIAL_REMOTE_WINDOW && sent == [] && held == [] && increments == []
    {
      mode := WRITE;
      buf := new ByteBuffer.Allocate(capacity);
      toWrite := capacity;
      toRead := 0;
      closed := false;
      window := INITIAL_REMOTE_WINDOW;
      sent := [];
      held := [];
      increments := [];
    }

    /** `increaseRemoteAvailable`: the peer announced `size` more bytes of room. */
    method IncreaseRemoteAvailable(size: int)
      requires Valid()
      modifies this
      ensures Valid() && window == old(window) + size && increments == old(increments) + [size]
      ensures mode == old(mode) && toWrite == old(toWrite) && toRead == old(toRead)
      ensures closed == old(closed) && sent == old(sent) && held == old(held)
    {
      SumAppend(increments, size);
      window := window + size;
      increments := increments + [size];
    }

    /** One pass of the sender loop, once the remote window and the buffer
        both hold at least one byte: the oldest min(window, buffered) bytes
        go out in one `sendData` call, leave the buffer and use up window. */
    method SendStep()
      requires Valid() && window >= 1 && toRead >= 1
      modifies this, buf
      ensures Valid() && increments == old(increments) && closed == old(closed) && toRead == |held|
      ensures var n := Clamp(old(window), old(toRead));
              1 <= n && sent == old(sent) + [old(held)[..n]] && held == old(held)[n..] &&
              window == old(window) - n && toRead == old(toRead) - n && toWrite == old(toWrite) + n
      ensures 0 <= window && |Flatten(sent)| <= INITIAL_REMOTE_WINDOW + Sum(increments)
    {
      TurnToRead();
      var n := Clamp(window, toRead);
      var chunk := TakeChunk(n);
      FlattenAppend(sent, chunk);
      sent := sent + [chunk];
      window := window - n;
    }

    /** Takes the oldest `n` buffered bytes out of the buffer. */
    method TakeChunk(n: nat) returns (chunk: seq<Byte>)
      requires Valid() && mode == READ && n <= toRead
      modifies this, buf
      ensures mode == READ && chunk == old(held)[..n] && held == old(held)[n..]
      ensures toRead == old(toRead) - n && toWrite == old(toWrite) + n
      ensures window == old(window) && sent == old(sent) && increments == old(increments) && closed == old(closed)
      ensures buf.Valid() && Holds() && toRead == |held| && toWrite + toRead == buf.hb.Length && toWrite >= 0
    {
      chunk := buf.GetSeq(n);
      held := held[n..];
      toRead := toRead - n;
      toWrite := toWrite + n;
    }

    /** Switches to reading (`flip`) unless already reading. */
    method TurnToRead()
      requires Valid()
      modifies this, buf
      ensures Valid() && mode == READ && held == old(held)
      ensures toWrite == old(toWrite) && toRead == old(toRead) && closed == old(closed)
      ensures window == old(window) && sent == old(sent) && increments == old(increments)
    {
      if mode != READ {
        mode := READ;
        buf.Flip();
      }
    }

    /** Switches to writing (`compact`) unless already writing. */
    method TurnToWrite()
      requires Valid()
      modifies this, buf, buf.hb
      ensures Valid() && mode == WRITE && held == old(held)
      ensures toWrite == old(toWrite) && toRead == old(toRead) && closed == old(closed)
      ensures window == old(window) && sent == old(sent) && increments == old(increments)
    {
      if mode != WRITE {
        mode := WRITE;
        buf.Compact();
      }
    }

    /** `write(int)`: appends `(byte) b`, the low eight bits. The wait for
        space is the precondition. */
    method WriteByte(b: int) returns (r: Result<()>)
      requires Valid() && (closed || toWrite >= 1)
      modifies this, buf, buf.hb
      ensures Valid() && closed == old(closed) && window == old(window)
      ensures sent == old(sent) && increments == old(increments)
      ensures old(closed) ==> r == Thrown(IOException) && held == old(held) && toWrite == old(toWrite)
      ensures !old(closed) ==> r == Ok(()) && held == old(held) + [LowByte(b)] && toWrite == old(toWrite) - 1
    {
      if closed {
        return Thrown(IOException);
      }
      TurnToWrite();
      buf.Put(LowByte(b));
      held := held + [LowByte(b)];
      toWrite := toWrite - 1;
      toRead := toRead + 1;
      r := Ok(());
    }

    /** `write(b, off, len)`: appends `b[off..off+len]` in order, chunk by
        chunk. The wait for space between chunks is not modelled, so the
        whole request must fit in the free space. */
    method Write(b: array?<Byte>, off: int, len: int) returns (r: Result<()>)
      requires Valid() && (closed || b == null || len <= toWrite) && b != buf.hb
      modifies this, buf, buf.hb
      ensures Valid() && closed == old(closed) && window == old(window) && toRead == |held|
      ensures sent == old(sent) && increments == old(increments)
      ensures b == null ==> r == Thrown(NullPointer)
      ensures b != null && old(closed) ==> r == Thrown(IOException)
      ensures r.Thrown? ==> held == old(held)
      ensures b != null && !old(closed) ==>
                (r.Ok? <==> len <= 0 || (0 <= off && off + len <= b.Length)) &&
                (r.Thrown? ==> r.exc == IndexOutOfBounds)
      ensures r.Ok? && len > 0 ==> b != null && held == old(held) + b[off..off + len] &&
                                   toWrite == old(toWrite) - len
      ensures r.Ok? && len <= 0 ==> held == old(held)
    {
      if b == null {
        return Thrown(NullPointer);
      }
      if closed {
        return Thrown(IOException);
      }
      var transferred := 0;
      while transferred < len
        invariant Valid() && !closed && window == old(window)
        invariant sent == old(sent) && increments == old(increments)
        invariant transferred == 0 || transferred == len
        invariant transferred == 0 ==> held == old(held) && toWrite == old(toWrite)
        invariant transferred > 0 ==> 0 <= off && off + len <= b.Length &&
                                         held == old(held) + b[off..off + len] &&
                                         toWrite == old(toWrite) - len
        decreases len - transferred
      {
        var n := ChunkSizeAsWritten(len, transferred, toWrite);
        if off + transferred < 0 || off + transferred + n > b.Length {
          return Thrown(IndexOutOfBounds);
        }
        PutChunk(b, off + transferred, n);
        transferred := transferred + n;
      }
      r := Ok(());
    }

    /** One chunk of `write(b, off, len)` once its range has passed the
        checks: `b[from..from+n]` goes to the tail. */
    method PutChunk(b: array<Byte>, from: nat, n: nat)
      requires Valid() && b != buf.hb && from + n <= b.Length && n <= toWrite
      modifies this, buf, buf.hb
      ensures Valid() && held == old(held) + b[from..from + n] && toWrite == old(toWrite) - n
      ensures closed == old(closed) && window == old(window)
      ensures sent == old(sent) && increments == old(increments)
    {
      TurnToWrite();
      buf.PutSeq(b[from..from + n]);
      held := held + b[from..from + n];
      toWrite := toWrite - n;
      toRead := toRead + n;
    }

    method Close()
      requires Valid()
      modifies this
      ensures Valid() && closed
      ensures mode == old(mode) && toWrite == old(toWrite) && toRead == old(toRead) && window == old(window)
      ensures sent == old(sent) && held == old(held) && increments == old(increments)
    {
      closed := true;
    }
  }

  /** The flow-control walk-through, first part: with a 4096-byte transit
      buffer, 2048 bytes go out at once, leaving 2048 in the window; a
      further 4096 bytes then fill the buffer. */
  method WindowLimitsSending() returns (sizes: seq<int>, window: int, left: int)
    ensures sizes == [2048] && window == 2048 && left == 4096
  {
    var o := new StreamOutputStream(4096);
    var first := new Byte[2048];
    var r1 := o.Write(first, 0, 2048);
    o.SendStep();
    var second := new Byte[4096];
    var r2 := o.Write(second, 0, 4096);
    sizes := [|o.sent[0]|];
    window := o.window;
    left := o.toRead;
  }

  /** Second part: of 4096 waiting bytes only the 2048 left in the window
      go out, and the window is used up. */
  method WindowCapsChunk(o: StreamOutputStream)
    requires o.Valid() && o.window == 2048 && o.toRead == 4096
    modifies o, o.buf
    ensures o.Valid() && |o.sent| == |old(o.sent)| + 1 && |o.sent[|o.sent| - 1]| == 2048
    ensures o.window == 0 && o.toRead == 2048
  {
    o.SendStep();
  }

  /** Third part: with the window used up and 2048 bytes waiting, an
      increment of 1024 lets exactly 1024 more go out. */
  method IncrementReleasesExactly(o: StreamOutputStream)
    requires o.Valid() && o.window == 0 && o.toRead == 2048
    modifies o, o.buf
    ensures o.Valid() && |o.sent| == |old(o.sent)| + 1 && |o.sent[|o.sent| - 1]| == 1024
    ensures o.window == 0 && o.toRead == 1024
  {
    o.IncreaseRemoteAvailable(1024);
    o.SendStep();
  }

  /** One copy pass as written, after four of ten bytes went in and eight
      bytes of space came free: it asks for eight bytes from offset four of
      a ten-byte array and fails where the intended six would fit. */
  method OvercopyScenario() returns (asWritten: bool, intended: bool)
    ensures !asWritten && intended
  {
    var len, transferred, free, length := 10, 4, 8, 10;
    asWritten := transferred + ChunkSizeAsWritten(len, transferred, free) <= length;
    intended := transferred + ChunkSize(len, transferred, free) <= length;
  }
}
