/** The part of java.nio.ByteBuffer the buffered streams use: a heap array
    with a position and a limit. In write mode the bytes before `position`
    are held; after `flip` the held bytes are those between `position` and
    `limit`; `compact` moves the unread bytes back to the front. */
module Buffers {
  import opened Bytes

  /** Which end of the buffer is in use: `WRITE` after `compact`, `READ`
      after `flip`; only the transit buffer starts in `NONE`. */
  datatype BufferMode = NONE | READ | WRITE

  /** A request cut down to what is there: the count `read(b, off, len)`
      hands out of `remaining` buffered bytes, the count one send step
      takes within the remote window, the chunk a write copies into the
      free space. */
  function Clamp(request: int, remaining: int): (n: int)
    ensures n <= request && n <= remaining
    ensures n == request || n == remaining
  {
    if request > remaining then remaining else request
  }

  /** Total of a sequence of counts, accumulated from the back. */
  function Sum(s: seq<int>): (r: int)
    ensures (forall i :: 0 <= i < |s| ==> s[i] >= 0) ==> r >= 0
  {
    if s == [] then 0 else Sum(s[..|s| - 1]) + s[|s| - 1]
  }

  lemma SumAppend(s: seq<int>, x: int)
    ensures Sum(s + [x]) == Sum(s) + x
  {
    assert (s + [x])[..|s|] == s;
  }

  /** The concatenation of a sequence of byte chunks, in order. */
  function Flatten(chunks: seq<seq<Byte>>): (r: seq<Byte>)
    ensures |chunks| == 1 ==> r == chunks[0]
  {
    if chunks == [] then [] else Flatten(chunks[..|chunks| - 1]) + chunks[|chunks| - 1]
  }

  lemma FlattenAppend(chunks: seq<seq<Byte>>, c: seq<Byte>)
    ensures Flatten(chunks + [c]) == Flatten(chunks) + c
  {
    assert (chunks + [c])[..|chunks|] == chunks;
  }

  class ByteBuffer {
    const hb: array<Byte>
    var position: int
    var limit: int

    ghost predicate Valid()
      reads this
    {
      0 <= position <= limit <= hb.Length
    }

    /** `ByteBuffer.allocate(capacity)`: zero-filled, empty, writable to the end. */
    constructor Allocate(capacity: nat)
      ensures Valid() && fresh(hb) && hb.Length == capacity
      ensures position == 0 && limit == capacity
      ensures forall i :: 0 <= i < capacity ==> hb[i] == 0
    {
      hb := new Byte[capacity](_ => 0);
      position := 0;
      limit := capacity;
    }

    /** `flip`: the bytes written so far become the readable ones. */
    method Flip()
      requires Valid()
      modifies this
      ensures Valid() && position == 0 && limit == old(position)
    {
      limit := position;
      position := 0;
    }

    /** `compact`: moves the unread bytes to the front and makes the rest
        writable again. */
    method Compact()
      requires Valid()
      modifies this, hb
      ensures Valid() && position == old(limit - position) && limit == hb.Length
      ensures forall k :: 0 <= k < position ==> hb[k] == old(hb[position + k])
    {
      var p, n := position, limit - position;
      var i := 0;
      while i < n
        invariant 0 <= i <= n
        invariant forall k :: 0 <= k < i ==> hb[k] == old(hb[p + k])
        invariant forall k :: i <= k < hb.Length ==> hb[k] == old(hb[k])
      {
        hb[i] := hb[p + i];
        i := i + 1;
      }
      position := n;
      limit := hb.Length;
    }

    /** `put(b)` with room left. */
    method Put(b: Byte)
      requires Valid() && position < limit
      modifies this, hb
      ensures Valid() && position == old(position) + 1 && limit == old(limit)
      ensures hb[old(position)] == b
      ensures forall k :: 0 <= k < hb.Length && k != old(position) ==> hb[k] == old(hb[k])
    {
      hb[position] := b;
      position := position + 1;
    }

    /** Copies `src` in at `position` and moves past it. */
    method PutSeq(src: seq<Byte>)
      requires Valid() && position + |src| <= limit
      modifies this, hb
      ensures Valid() && position == old(position) + |src| && limit == old(limit)
      ensures forall k :: 0 <= k < old(position) ==> hb[k] == old(hb[k])
      ensures forall k :: 0 <= k < |src| ==> hb[old(position) + k] == src[k]
    {
      var i := 0;
      while i < |src|
        invariant 0 <= i <= |src|
        invariant position == old(position) && limit == old(limit)
        invariant forall k :: 0 <= k < hb.Length ==>
                    hb[k] == if position <= k < position + i then src[k - position] else old(hb[k])
      {
        hb[position + i] := src[i];
        i := i + 1;
      }
      position := position + |src|;
    }

    /** `get()` with a byte left. */
    method Get() returns (b: Byte)
      requires Valid() && position < limit
      modifies this
      ensures Valid() && b == hb[old(position)]
      ensures position == old(position) + 1 && limit == old(limit)
    {
      b := hb[position];
      position := position + 1;
    }

    /** Takes the next `n` readable bytes. */
    method GetSeq(n: nat) returns (s: seq<Byte>)
      requires Valid() && position + n <= limit
      modifies this
      ensures Valid() && |s| == n && forall k :: 0 <= k < n ==> s[k] == hb[old(position) + k]
      ensures position == old(position) + n && limit == old(limit)
    {
      s := hb[position..position + n];
      position := position + n;
    }

    /** `get(dst, off, n)` once the bounds have been checked: the next `n`
        readable bytes land in `dst[off..off+n]`, nothing else in `dst` moves. */
    method GetInto(dst: array<Byte>, off: nat, n: nat)
      requires Valid() && dst != hb && off + n <= dst.Length && position + n <= limit
      modifies this, dst
      ensures Valid() && position == old(position) + n && limit == old(limit)
      ensures forall k :: off <= k < off + n ==> dst[k] == hb[old(position) + k - off]
      ensures forall k :: 0 <= k < dst.Length && !(off <= k < off + n) ==> dst[k] == old(dst[k])
    {
      var i := 0;
      while i < n
        invariant 0 <= i <= n
        invariant position == old(position) && limit == old(limit)
        invariant forall k :: 0 <= k < dst.Length ==>
                    dst[k] == if off <= k < off + i then hb[position + k - off] else old(dst[k])
      {
        dst[off + i] := hb[position + i];
        i := i + 1;
      }
      position := position + n;
    }
  }
}
