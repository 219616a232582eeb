/** PriorityQueueEntry: the ordering envelope around a message, the sorted
    queue the handlers keep entries in, and the (time, sequence) stamping
    both message handlers apply. */
module Envelope {
  import opened Bytes

  /** (priority, timestamp, sequence, message); the priority is the signed
      Java byte taken from byte 0 of the message. */
  datatype Entry = Entry(priority: SignedByte, timestamp: int, sequence: int, message: seq<Byte>)

  /** The three ordering fields, most significant first. */
  function Key(e: Entry): (k: seq<int>)
    ensures |k| == 3
  {
    [e.priority as int, e.timestamp, e.sequence]
  }

  /** Reference order: strict lexicographic comparison of equal-length keys. */
  predicate LexLess(a: seq<int>, b: seq<int>)
    requires |a| == |b|
  {
    |a| > 0 && (a[0] < b[0] || (a[0] == b[0] && LexLess(a[1..], b[1..])))
  }

  lemma {:induction false} LexLessIrreflexive(a: seq<int>)
    ensures !LexLess(a, a)
  {
    if |a| > 0 {
      LexLessIrreflexive(a[1..]);
    }
  }

  lemma {:induction false} LexLessTransitive(a: seq<int>, b: seq<int>, c: seq<int>)
    requires |a| == |b| == |c|
    requires LexLess(a, b) && LexLess(b, c)
    ensures LexLess(a, c)
  {
    if a[0] == b[0] && b[0] == c[0] {
      LexLessTransitive(a[1..], b[1..], c[1..]);
    }
  }

  lemma {:induction false} LexLessTotal(a: seq<int>, b: seq<int>)
    requires |a| == |b|
    ensures LexLess(a, b) || a == b || LexLess(b, a)
  {
    if |a| > 0 && a[0] == b[0] {
      LexLessTotal(a[1..], b[1..]);
      if a[1..] == b[1..] {
        assert a == [a[0]] + a[1..] && b == [b[0]] + b[1..];
      }
    }
  }

  /** On three-field keys the reference order unfolds to the nested comparison. */
  lemma LexLessOnKeys(a: Entry, o: Entry)
    ensures LexLess(Key(a), Key(o)) <==>
            a.priority < o.priority || (a.priority == o.priority &&
            (a.timestamp < o.timestamp || (a.timestamp == o.timestamp && a.sequence < o.sequence)))
  {
    var ka, ko := Key(a), Key(o);
    assert ka[1..] == [a.timestamp, a.sequence] && ko[1..] == [o.timestamp, o.sequence];
    assert ka[1..][1..] == [a.sequence] && ko[1..][1..] == [o.sequence];
    assert !LexLess(ka[1..][1..][1..], ko[1..][1..][1..]);
    assert LexLess(ka[1..][1..], ko[1..][1..]) <==> a.sequence < o.sequence;
    assert LexLess(ka[1..], ko[1..]) <==>
           a.timestamp < o.timestamp || (a.timestamp == o.timestamp && a.sequence < o.sequence);
  }

  /** `compareTo`: -1 when `a` sorts first, +1 when `o` does, 0 exactly when
      all three ordering fields agree; the message is never consulted. */
  function CompareTo(a: Entry, o: Entry): (r: int)
    ensures r == -1 || r == 0 || r == 1
    ensures r == 0 <==> a.priority == o.priority && a.timestamp == o.timestamp && a.sequence == o.sequence
  {
    if o.priority < a.priority then 1
    else if o.priority > a.priority then -1
    else if o.timestamp < a.timestamp then 1
    else if o.timestamp > a.timestamp then -1
    else if o.sequence < a.sequence then 1
    else if o.sequence > a.sequence then -1
    else 0
  }

  /** `compareTo` is the lexicographic order on (priority, timestamp, sequence). */
  lemma CompareToIsLexicographic(a: Entry, o: Entry)
    ensures CompareTo(a, o) == -1 <==> LexLess(Key(a), Key(o))
    ensures CompareTo(a, o) == 1 <==> LexLess(Key(o), Key(a))
  {
    LexLessOnKeys(a, o);
    LexLessOnKeys(o, a);
  }

  /** A smaller priority sorts first whatever the other fields hold. */
  lemma PriorityDecides(a: Entry, o: Entry)
    requires a.priority < o.priority
    ensures CompareTo(a, o) == -1 && CompareTo(o, a) == 1
  {
  }

  /** Equal priorities: the earlier timestamp sorts first. */
  lemma TimestampDecides(a: Entry, o: Entry)
    requires a.priority == o.priority && a.timestamp < o.timestamp
    ensures CompareTo(a, o) == -1 && CompareTo(o, a) == 1
  {
  }

  /** Equal priorities and timestamps: the lower sequence sorts first. */
  lemma SequenceDecides(a: Entry, o: Entry)
    requires a.priority == o.priority && a.timestamp == o.timestamp && a.sequence < o.sequence
    ensures CompareTo(a, o) == -1 && CompareTo(o, a) == 1
  {
  }

  lemma CompareAntisymmetric(a: Entry, o: Entry)
    ensures CompareTo(a, o) == -CompareTo(o, a)
  {
  }

  lemma CompareTransitive(a: Entry, b: Entry, c: Entry)
    requires CompareTo(a, b) <= 0 && CompareTo(b, c) <= 0
    ensures CompareTo(a, c) <= 0
  {
    CompareToIsLexicographic(a, b);
    CompareToIsLexicographic(b, c);
    CompareToIsLexicographic(a, c);
    if CompareTo(a, b) < 0 && CompareTo(b, c) < 0 {
      LexLessTransitive(Key(a), Key(b), Key(c));
    }
  }

  // ---------------------------------------------------------------------
  // The priority queue, kept as a sequence sorted by CompareTo.

  ghost predicate Sorted(q: seq<Entry>)
  {
    forall i, j :: 0 <= i < j < |q| ==> CompareTo(q[i], q[j]) <= 0
  }

  /** `add`: the entry goes after every entry that does not sort after it;
      nothing is lost and nothing else is added. */
  function Insert(q: seq<Entry>, e: Entry): (r: seq<Entry>)
    ensures |r| == |q| + 1
    ensures multiset(r) == multiset(q) + multiset{e}
  {
    if q == [] then [e]
    else if CompareTo(e, q[0]) < 0 then [e] + q
    else
      assert q == [q[0]] + q[1..];
      [q[0]] + Insert(q[1..], e)
  }

  /** Adding to a sorted queue keeps it sorted. */
  lemma {:induction false} InsertKeepsSorted(q: seq<Entry>, e: Entry)
    requires Sorted(q)
    ensures Sorted(Insert(q, e))
  {
    if q == [] {
    } else if CompareTo(e, q[0]) < 0 {
      forall k | 0 <= k < |q| ensures CompareTo(e, q[k]) <= 0 {
        CompareTransitive(e, q[0], q[k]);
      }
      ConsSorted(e, q);
    } else {
      var rest := Insert(q[1..], e);
      assert Sorted(q[1..]);
      InsertKeepsSorted(q[1..], e);
      CompareAntisymmetric(e, q[0]);
      forall k | 0 <= k < |rest| ensures CompareTo(q[0], rest[k]) <= 0 {
        assert rest[k] in multiset(rest);
        if rest[k] != e {
          assert rest[k] in multiset(q[1..]);
          var i :| 0 <= i < |q[1..]| && q[1..][i] == rest[k];
          assert q[i + 1] == rest[k];
        }
      }
      ConsSorted(q[0], rest);
    }
  }

  /** An entry that sorts after everything queued goes to the back. */
  lemma {:induction false} InsertAfterAll(q: seq<Entry>, e: Entry)
    requires forall x :: x in q ==> CompareTo(x, e) < 0
    ensures Insert(q, e) == q + [e]
  {
    if q != [] {
      assert q[0] in q;
      CompareAntisymmetric(e, q[0]);
      forall x | x in q[1..] ensures CompareTo(x, e) < 0 {
        assert x in q;
      }
      InsertAfterAll(q[1..], e);
      assert q == [q[0]] + q[1..];
    }
  }

  lemma ConsSorted(h: Entry, q: seq<Entry>)
    requires Sorted(q)
    requires forall k :: 0 <= k < |q| ==> CompareTo(h, q[k]) <= 0
    ensures Sorted([h] + q)
  {
    var r := [h] + q;
    forall i, j | 0 <= i < j < |r| ensures CompareTo(r[i], r[j]) <= 0 {
      if i > 0 {
        assert r[i] == q[i - 1] && r[j] == q[j - 1];
      } else {
        assert r[j] == q[j - 1];
      }
    }
  }

  /** The head of a sorted queue sorts no later than anything in the queue:
      `poll` returns a minimum. */
  lemma {:induction false} HeadIsMinimum(q: seq<Entry>, x: Entry)
    requires Sorted(q) && x in q
    ensures CompareTo(q[0], x) <= 0
  {
    var i :| 0 <= i < |q| && q[i] == x;
    if i == 0 {
      assert Key(q[0]) == Key(x);
    }
  }

  /** Adding entries one at a time, in arrival order. */
  function InsertAll(q: seq<Entry>, xs: seq<Entry>): seq<Entry>
    decreases |xs|
  {
    if xs == [] then q else InsertAll(Insert(q, xs[0]), xs[1..])
  }

  /** Filled in any insertion order, the queue drains in ascending
      (priority, timestamp, sequence) order and loses nothing. */
  lemma {:induction false} InsertAllSorted(q: seq<Entry>, xs: seq<Entry>)
    requires Sorted(q)
    ensures Sorted(InsertAll(q, xs))
    ensures multiset(InsertAll(q, xs)) == multiset(q) + multiset(xs)
    decreases |xs|
  {
    if xs != [] {
      InsertKeepsSorted(q, xs[0]);
      InsertAllSorted(Insert(q, xs[0]), xs[1..]);
      assert xs == [xs[0]] + xs[1..];
    }
  }

  ghost predicate StrictlySorted(q: seq<Entry>)
  {
    forall i, j :: 0 <= i < j < |q| ==> CompareTo(q[i], q[j]) < 0
  }

  /** Entries that arrive already in strictly ascending order drain in
      arrival order. */
  lemma {:induction false} InsertAllInOrder(q: seq<Entry>, xs: seq<Entry>)
    requires StrictlySorted(q + xs)
    ensures InsertAll(q, xs) == q + xs
    decreases |xs|
  {
    if xs != [] {
      var all := q + xs;
      forall x | x in q ensures CompareTo(x, xs[0]) < 0 {
        var i :| 0 <= i < |q| && q[i] == x;
        assert all[i] == x && all[|q|] == xs[0];
      }
      InsertAfterAll(q, xs[0]);
      assert q + [xs[0]] + xs[1..] == all;
      InsertAllInOrder(q + [xs[0]], xs[1..]);
    }
  }

  // ---------------------------------------------------------------------
  // Stamping with the clock time and a per-millisecond sequence counter.

  datatype Stamp = Stamp(time: int, sequence: int)

  predicate StampLess(a: Stamp, b: Stamp)
  {
    a.time < b.time || (a.time == b.time && a.sequence < b.sequence)
  }

  /** The counters after a message arrives at clock time `now`: the sequence
      counts on within the same millisecond and restarts at 0 when it moves. */
  function NextStamp(last: Stamp, now: int): (s: Stamp)
    ensures s.time == now
    ensures now == last.time ==> s.sequence == last.sequence + 1
    ensures now != last.time ==> s.sequence == 0
  {
    if now == last.time then Stamp(last.time, last.sequence + 1) else Stamp(now, 0)
  }

  /** A clock that does not run backwards yields a strictly later stamp. */
  lemma NextStampAdvances(last: Stamp, now: int)
    requires now >= last.time
    ensures StampLess(last, NextStamp(last, now))
  {
  }

  /** The stamps a series of arrivals at clock readings `times` receives. */
  function StampSeries(last: Stamp, times: seq<int>): (r: seq<Stamp>)
    ensures |r| == |times|
    decreases |times|
  {
    if times == [] then []
    else var s := NextStamp(last, times[0]); [s] + StampSeries(s, times[1..])
  }

  predicate NonDecreasing(times: seq<int>)
  {
    forall i, j :: 0 <= i < j < |times| ==> times[i] <= times[j]
  }

  /** Under a non-decreasing clock every stamp is strictly later than the
      counters it started from and than every earlier stamp. */
  lemma {:induction false} StampSeriesIncreasing(last: Stamp, times: seq<int>)
    requires NonDecreasing(times) && (|times| > 0 ==> times[0] >= last.time)
    ensures forall i :: 0 <= i < |times| ==> StampLess(last, StampSeries(last, times)[i])
    ensures forall i, j :: 0 <= i < j < |times| ==>
              StampLess(StampSeries(last, times)[i], StampSeries(last, times)[j])
    decreases |times|
  {
    if times != [] {
      var s := NextStamp(last, times[0]);
      var rest := StampSeries(s, times[1..]);
      assert NonDecreasing(times[1..]);
      StampSeriesIncreasing(s, times[1..]);
      assert StampSeries(last, times) == [s] + rest;
    }
  }

  /** Messages of one priority stamped under a non-decreasing clock. */
  function Arrivals(priority: SignedByte, stamps: seq<Stamp>, msgs: seq<seq<Byte>>): (r: seq<Entry>)
    requires |stamps| == |msgs|
    ensures |r| == |msgs|
    ensures forall i :: 0 <= i < |r| ==>
              r[i] == Entry(priority, stamps[i].time, stamps[i].sequence, msgs[i])
  {
    seq(|msgs|, i requires 0 <= i < |msgs| => Entry(priority, stamps[i].time, stamps[i].sequence, msgs[i]))
  }

  /** FIFO within a priority: messages of one priority arriving under a clock
      that never runs backwards poll back in arrival order. */
  lemma SamePriorityPollsInArrivalOrder(priority: SignedByte, last: Stamp, times: seq<int>, msgs: seq<seq<Byte>>)
    requires |times| == |msgs|
    requires NonDecreasing(times) && (|times| > 0 ==> times[0] >= last.time)
    ensures InsertAll([], Arrivals(priority, StampSeries(last, times), msgs)) ==
            Arrivals(priority, StampSeries(last, times), msgs)
  {
    var xs := Arrivals(priority, StampSeries(last, times), msgs);
    StampSeriesIncreasing(last, times);
    assert StrictlySorted([] + xs);
    InsertAllInOrder([], xs);
  }

  /** `PriorityQueueEntryTest`: three entries added as v3, v1, v2 drain as
      v1, v2, v3 when they differ in priority, in timestamp, or in sequence. */
  lemma DrainOrderExamples(m: seq<Byte>)
    ensures var v1, v2, v3 := Entry(1, 1, 0, m), Entry(2, 1, 0, m), Entry(3, 1, 0, m);
            InsertAll([], [v3, v1, v2]) == [v1, v2, v3]
    ensures var v1, v2, v3 := Entry(1, 1, 0, m), Entry(1, 2, 0, m), Entry(1, 3, 0, m);
            InsertAll([], [v3, v1, v2]) == [v1, v2, v3]
    ensures var v1, v2, v3 := Entry(1, 1, 1, m), Entry(1, 1, 2, m), Entry(1, 1, 3, m);
            InsertAll([], [v3, v1, v2]) == [v1, v2, v3]
  {
    DrainThree(Entry(1, 1, 0, m), Entry(2, 1, 0, m), Entry(3, 1, 0, m));
    DrainThree(Entry(1, 1, 0, m), Entry(1, 2, 0, m), Entry(1, 3, 0, m));
    DrainThree(Entry(1, 1, 1, m), Entry(1, 1, 2, m), Entry(1, 1, 3, m));
  }

  lemma DrainThree(v1: Entry, v2: Entry, v3: Entry)
    requires CompareTo(v1, v2) < 0 && CompareTo(v2, v3) < 0
    ensures InsertAll([], [v3, v1, v2]) == [v1, v2, v3]
  {
    CompareTransitive(v1, v2, v3);
    assert InsertAll([], [v3, v1, v2]) == InsertAll([v3], [v1, v2]);
    assert Insert([v3], v1) == [v1, v3];
    assert InsertAll([v3], [v1, v2]) == InsertAll([v1, v3], [v2]);
    assert Insert([v3], v2) == [v2, v3];
    assert Insert([v1, v3], v2) == [v1, v2, v3];
  }

  // ---------------------------------------------------------------------
  // The signed priority byte.

  /** As written, the wire priority is cast to a signed byte, so a byte of
      200 (documented as a low priority) sorts ahead of priority 1. */
  lemma WirePriorityAbove127SortsFirst(t: int, s: int, m: seq<Byte>)
    ensures CompareTo(Entry(SignExtend(200), t, s, m), Entry(SignExtend(1), t, s, m)) == -1
  {
  }

  /** The documented order "0 highest, then 1, ... 255 lowest" compares the
      wire byte unsigned; returns -1, 0 or +1 like `compareTo`. */
  function UnsignedPriorityCompare(p: Byte, q: Byte): (r: int)
    ensures r == -1 <==> p < q
    ensures r == 0 <==> p == q
    ensures r == 1 <==> q < p
  {
    if p < q then -1 else if p == q then 0 else 1
  }

  /** Under the documented order the shutdown priority 0 precedes every user
      priority 1..255, and 255 follows every other priority. */
  lemma UnsignedOrderMatchesDocumentation(p: Byte)
    ensures p != 0 ==> UnsignedPriorityCompare(0, p) == -1
    ensures p != 255 ==> UnsignedPriorityCompare(p, 255) == -1
  {
  }

  /** The signed order agrees with the documented one whenever both wire
      bytes lie on the same side of 128: sign extension is monotone on
      0..127 and on 128..255 alike. */
  lemma SignedOrderAgreesWithinHalves(p: Byte, q: Byte)
    requires (p < 128) == (q < 128)
    ensures (SignExtend(p) < SignExtend(q)) <==> (UnsignedPriorityCompare(p, q) == -1)
  {
  }

  /** On a mixed pair the two orders disagree: the documented order puts the
      byte below 128 first, the signed one puts the byte of 128 or more first. */
  lemma SignedOrderMixed(p: Byte, q: Byte)
    requires p < 128 <= q
    ensures SignExtend(q) < SignExtend(p) && UnsignedPriorityCompare(p, q) == -1
  {
  }
}
