/** StreamMap: the map from local stream id to Stream, together with the
    bitset that hands out ids. An id is the lowest clear bit; at most
    MAX_STREAMS ids are in use at once. */
module StreamIds {
  import opened Outcomes
  import opened Streams

  const MAX_STREAMS: int := 100
  /** The bitset's initial size; ids never reach it. */
  const SLOT_BITS: int := 128

  /** The ids 0..n-1. */
  ghost function Range(n: nat): (r: set<int>)
    ensures forall i :: i in r <==> 0 <= i < n
  {
    if n == 0 then {} else Range(n - 1) + {n - 1}
  }

  lemma {:induction false} RangeSize(n: nat)
    ensures |Range(n)| == n
  {
    if n > 0 {
      RangeSize(n - 1);
    }
  }

  lemma SubsetSize(a: set<int>, b: set<int>)
    requires a <= b
    ensures |a| <= |b|
  {
    assert b == a + (b - a);
    assert a * (b - a) == {};
  }

  /** Ids drawn from 0..limit-1 leave one free exactly when fewer than
      `limit` of them are taken. */
  lemma FreeIdIffBelowLimit(used: set<int>, limit: nat)
    requires forall i :: i in used ==> 0 <= i < limit
    ensures (exists i :: 0 <= i < limit && i !in used) <==> |used| < limit
  {
    RangeSize(limit);
    assert used <= Range(limit);
    if exists i :: 0 <= i < limit && i !in used {
      var i :| 0 <= i < limit && i !in used;
      SubsetSize(used, Range(limit) - {i});
      assert |Range(limit) - {i}| == limit - 1;
    } else {
      assert used == Range(limit);
    }
  }

  class StreamMap {
    /** The `slots` bitset: bit i is set while id i is allocated. */
    const slots: array<bool>
    /** The map contents (StreamMap is itself a ConcurrentHashMap). */
    var entries: map<int, Stream>

    ghost predicate Valid()
      reads this, slots
    {
      slots.Length == SLOT_BITS && forall i :: MAX_STREAMS <= i < SLOT_BITS ==> !slots[i]
    }

    /** The allocated ids. */
    ghost function Used(): set<int>
      reads this, slots
    {
      set i | 0 <= i < slots.Length && slots[i]
    }

    constructor ()
      ensures Valid() && fresh(slots) && Used() == {} && entries == map[]
    {
      slots := new bool[SLOT_BITS](_ => false);
      entries := map[];
    }

    /** `slots.nextClearBit(0)`: the first clear bit, or the bitset's size
        when every bit is set. */
    method NextClearBit() returns (n: int)
      requires Valid()
      ensures 0 <= n <= slots.Length
      ensures n < slots.Length ==> !slots[n]
      ensures forall i :: 0 <= i < n ==> slots[i]
    {
      n := 0;
      while n < slots.Length && slots[n]
        invariant 0 <= n <= slots.Length
        invariant forall i :: 0 <= i < n ==> slots[i]
      {
        n := n + 1;
      }
    }

    /** `allocNewStreamId`: sets and returns the lowest clear bit, or throws
        (an IOException wrapping LimitExceededException) with nothing changed
        when every id below MAX_STREAMS is taken. */
    method AllocNewStreamId() returns (r: Result<int>)
      requires Valid()
      modifies slots
      ensures Valid()
      ensures r.Ok? <==> |old(Used())| < MAX_STREAMS
      ensures r.Ok? ==> 0 <= r.value < MAX_STREAMS && r.value !in old(Used()) &&
                        (forall i :: 0 <= i < r.value ==> i in old(Used())) &&
                        Used() == old(Used()) + {r.value}
      ensures r.Ok? ==> slots[..] == old(slots[..])[r.value := true]
      ensures r.Thrown? ==> r.exc == IOException && slots[..] == old(slots[..])
      ensures entries == old(entries)
    {
      FreeIdIffBelowLimit(Used(), MAX_STREAMS);
      var id := NextClearBit();
      if id >= MAX_STREAMS {
        assert forall i :: 0 <= i < MAX_STREAMS ==> i in Used();
        return Thrown(IOException);
      }
      assert id !in Used();
      slots[id] := true;
      assert Used() == old(Used()) + {id};
      r := Ok(id);
    }

    /** `freeStreamId`: clears a set bit below MAX_STREAMS. An id of 100 or
        more, or one not in use, throws an IOException; a negative id makes
        the bitset throw. Nothing changes on any failure. */
    method FreeStreamId(id: int) returns (r: Result<()>)
      requires Valid()
      modifies slots
      ensures Valid()
      ensures id >= MAX_STREAMS ==> r == Thrown(IOException)
      ensures id < 0 ==> r == Thrown(IndexOutOfBounds)
      ensures 0 <= id < MAX_STREAMS ==> (r.Ok? <==> id in old(Used()))
      ensures r.Ok? ==> Used() == old(Used()) - {id} && slots[..] == old(slots[..])[id := false]
      ensures r.Thrown? ==> slots[..] == old(slots[..])
      ensures entries == old(entries)
    {
      if id >= MAX_STREAMS {
        return Thrown(IOException);
      }
      if id < 0 {
        return Thrown(IndexOutOfBounds);
      }
      if !slots[id] {
        return Thrown(IOException);
      }
      slots[id] := false;
      assert Used() == old(Used()) - {id};
      r := Ok(());
    }

    /** `put` on the underlying map. */
    method Put(id: int, s: Stream)
      modifies this
      ensures entries == old(entries)[id := s]
    {
      entries := entries[id := s];
    }

    /** `remove` on the underlying map. */
    method Remove(id: int)
      modifies this
      ensures entries == old(entries) - {id}
    {
      entries := entries - {id};
    }
  }

  /** The allocator's test scenario: a fresh map hands out 0, 1, ..., 99 in
      order, the 101st request fails, and once any id is freed the next
      request returns that same id. */
  method ExhaustThenReuse(freed: int) returns (ids: seq<int>, overflow: Result<int>, reused: Result<int>)
    requires 0 <= freed < MAX_STREAMS
    ensures |ids| == MAX_STREAMS && forall k :: 0 <= k < |ids| ==> ids[k] == k
    ensures overflow == Thrown(IOException)
    ensures reused == Ok(freed)
  {
    var m := new StreamMap();
    ids := [];
    while |ids| < MAX_STREAMS
      invariant m.Valid() && fresh(m.slots)
      invariant |ids| <= MAX_STREAMS
      invariant forall k :: 0 <= k < |ids| ==> ids[k] == k
      invariant forall i :: i in m.Used() <==> 0 <= i < |ids|
      invariant |m.Used()| == |ids|
    {
      ghost var before := m.Used();
      var r := m.AllocNewStreamId();
      assert |ids| < r.value ==> |ids| in before;
      ids := ids + [r.value];
    }
    ghost var full := m.Used();
    assert |full| == MAX_STREAMS && freed in full;
    overflow := m.AllocNewStreamId();
    assert m.Used() == full by {
      assert forall i :: 0 <= i < m.slots.Length ==> m.slots[i] == m.slots[..][i];
    }
    var f := m.FreeStreamId(freed);
    assert m.Used() == full - {freed};
    assert |m.Used()| == MAX_STREAMS - 1;
    assert forall i :: 0 <= i < MAX_STREAMS && i != freed ==> i in m.Used();
    reused := m.AllocNewStreamId();
  }
}
