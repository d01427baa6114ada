/** The bulk-insert ring buffer with every call atomic: an array-based class
    that refines a bounded first-in-first-out sequence. */
module RingBuffers {
  import opened Options
  import opened Bits

  /** The `n` slots of `s` that follow ticket `from`, in ticket order. */
  function Window<T>(s: seq<T>, from: nat, n: nat): (r: seq<T>)
    requires |s| > 0
    ensures |r| == n
  {
    seq(n, i requires 0 <= i < n => s[Slot(from + i, |s|)])
  }

  lemma WindowTail<T>(s: seq<T>, from: nat, n: nat)
    requires |s| > 0 && n > 0
    ensures Window(s, from, n) == [s[Slot(from, |s|)]] + Window(s, from + 1, n - 1)
  {
  }

  /** Writing the slot of ticket `from + n` appends, as long as the window does
      not already hold a full lap. */
  lemma WindowAppend<T>(s: seq<T>, from: nat, n: nat, x: T)
    requires n < |s|
    ensures Window(s[Slot(from + n, |s|) := x], from, n + 1) == Window(s, from, n) + [x]
  {
    var t := s[Slot(from + n, |s|) := x];
    forall i | 0 <= i < n
      ensures Window(t, from, n + 1)[i] == Window(s, from, n)[i]
    {
      if Slot(from + i, |s|) == Slot(from + n, |s|) {
        SlotInjective(from + i, from + n, |s|);
      }
    }
  }

  lemma SlotsDistinct(first: nat, end: nat, m: nat)
    requires m > 0 && first < end <= first + m
    ensures forall t :: first < t < end ==> Slot(t, m) != Slot(first, m)
  {
    forall t | first < t < end
      ensures Slot(t, m) != Slot(first, m)
    {
      if Slot(t, m) == Slot(first, m) {
        SlotInjective(t, first, m);
      }
    }
  }

  lemma Conserve<T>(start: seq<T>, pushed: seq<T>, records: seq<T>, held: seq<T>,
                    arrived: seq<T>, batch: seq<T>, left: seq<T>)
    requires start + pushed == records + held
    requires held + arrived == batch + left
    ensures start + (pushed + arrived) == (records + batch) + left
  {
    assert start + (pushed + arrived) == (start + pushed) + arrived;
    assert (records + held) + arrived == records + (held + arrived);
    assert records + (batch + left) == (records + batch) + left;
  }

  /** The constructor's capacity: the request itself if it is a power of two,
      otherwise the next one up. */
  method RoundUpCapacity(requested: int) returns (capacity: int)
    ensures IsPow2(capacity)
    ensures capacity >= 1 && capacity >= requested
    ensures forall p :: IsPow2(p) && p >= requested ==> capacity <= p
  {
    capacity := requested;
    if requested > 0 {
      PowerOfTwoTest(requested);
    }
    if requested <= 0 || BitAnd(requested, requested - 1) != 0 {
      var cap := 1;
      ghost var k: nat := 0;
      while cap < requested
        invariant cap == Pow2(k)
        invariant k > 0 ==> Pow2(k - 1) < requested
        decreases requested - cap
      {
        cap := 2 * cap;
        k := k + 1;
      }
      capacity := cap;
      forall p | IsPow2(p) && p >= requested
        ensures cap <= p
      {
        var j: nat :| Pow2(j) == p;
        if j < k {
          Pow2Monotone(j, k - 1);
        } else {
          Pow2Monotone(k, j);
        }
      }
    }
  }

  /** One look around the waiting loop of PopBatchBlocking: was the context
      cancelled, had the deadline passed, and what other threads pushed first. */
  datatype Poll<T> = Poll(cancelled: bool, expired: bool, arriving: seq<T>)

  datatype WaitError = InvalidCounts | Cancelled

  /** Neither a cancel nor the deadline ends the wait here. */
  predicate Clear<T>(poll: Poll<T>) {
    !poll.cancelled && !poll.expired
  }

  function AtMost(n: int, most: int): int {
    if n <= most then n else most
  }

  /** After `trips` trips that nothing ended: all that came has been taken, up to the most,
      and before the last of them there was not enough. */
  ghost predicate Taking<T>(queued: seq<T>, pushed: seq<T>, late: seq<T>, records: seq<T>, held: seq<T>,
                            trips: nat, least: int, most: int)
  {
    && queued + pushed == records + held && |late| <= |pushed|
    && (trips == 0 ==> records == [] && pushed == [] && held == queued)
    && (trips > 0 ==> |records| == AtMost(|queued| + |pushed|, most))
    && (trips > 1 ==> |queued| + |pushed| - |late| < least)
  }

  lemma TakenLengths<T>(queued: seq<T>, pushed: seq<T>, late: seq<T>, records: seq<T>, held: seq<T>,
                        trips: nat, least: int, most: int)
    requires Taking(queued, pushed, late, records, held, trips, least, most) && |records| < least <= most
    ensures |queued| + |pushed| == |records| + |held|
    ensures trips > 0 ==> held == []
  {
    assert |queued + pushed| == |records + held|;
  }

  /** A trip that nothing ends. */
  lemma TripTakes<T>(queued: seq<T>, pushed: seq<T>, late: seq<T>, records: seq<T>, held: seq<T>,
                     trips: nat, least: int, most: int, arrived: seq<T>, batch: seq<T>, left: seq<T>)
    requires Taking(queued, pushed, late, records, held, trips, least, most) && |records| < least <= most
    requires held + arrived == batch + left && |batch| == AtMost(|held| + |arrived|, most - |records|)
    ensures Taking(queued, pushed + arrived, arrived, records + batch, left, trips + 1, least, most)
  {
    Conserve(queued, pushed, records, held, arrived, batch, left);
    TakenLengths(queued, pushed, late, records, held, trips, least, most);
  }

  /** A trip that a cancel or the deadline ends takes nothing. */
  lemma TripEnds<T>(queued: seq<T>, pushed: seq<T>, late: seq<T>, records: seq<T>, held: seq<T>,
                    trips: nat, least: int, most: int, arrived: seq<T>, batch: seq<T>, left: seq<T>)
    requires Taking(queued, pushed, late, records, held, trips, least, most) && |records| < least <= most
    requires held + arrived == batch + left && |batch| == 0
    ensures queued + (pushed + arrived) == records + left && records + batch == records
    ensures left == (if trips == 0 then queued else []) + arrived
  {
    Conserve(queued, pushed, records, held, arrived, batch, left);
    TakenLengths(queued, pushed, late, records, held, trips, least, most);
    assert batch + left == left && records + batch == records;
  }

  class RingBuffer<T(0)> {
    const buffer: array<T>
    const writeComplete: array<int>
    const capacity: int
    const mask: int
    var writeIndex: int
    var readIndex: int
    var produced: int
    var consumed: int
    var waitTimeNs: int
    var closed: bool

    ghost predicate Valid()
      reads this, buffer, writeComplete
    {
      && IsPow2(capacity) && capacity >= 1 && mask == capacity - 1
      && buffer.Length == capacity && writeComplete.Length == capacity
      && (buffer as object) != (writeComplete as object)
      && 0 <= readIndex <= writeIndex <= readIndex + capacity
      && produced == writeIndex && consumed == readIndex
      && (forall t :: readIndex <= t < writeIndex ==> writeComplete[Slot(t, capacity)] == 1)
    }

    /** The queued records, oldest first. */
    ghost function Contents(): (s: seq<T>)
      reads this, buffer, writeComplete
      requires Valid()
      ensures |s| == writeIndex - readIndex <= capacity
    {
      Window(buffer[..], readIndex, writeIndex - readIndex)
    }

    constructor (requested: int)
      ensures Valid() && fresh(buffer) && fresh(writeComplete)
      ensures Contents() == [] && !closed
      ensures capacity >= requested
      ensures forall p :: IsPow2(p) && p >= requested ==> capacity <= p
    {
      var c := RoundUpCapacity(requested);
      capacity := c;
      mask := c - 1;
      buffer := new T[c];
      writeComplete := new int[c](_ => 0);
      writeIndex, readIndex, produced, consumed, waitTimeNs := 0, 0, 0, 0, 0;
      closed := false;
    }

    /** The position of a ticket. */
    method Position(ticket: int) returns (pos: int)
      requires IsPow2(capacity) && mask == capacity - 1 && ticket >= 0
      ensures capacity >= 1 && pos == Slot(ticket, capacity) == ticket % capacity
    {
      ghost var k: nat :| Pow2(k) == capacity;
      pos := BitAnd(ticket, mask);
      MaskIsSlot(ticket, k);
    }

    method CompareAndSwapWrite(expected: int, desired: int) returns (swapped: bool)
      modifies this`writeIndex
      ensures swapped == (old(writeIndex) == expected)
      ensures writeIndex == if swapped then desired else old(writeIndex)
    {
      swapped := writeIndex == expected;
      if swapped {
        writeIndex := desired;
      }
    }

    method CompareAndSwapRead(expected: int, desired: int) returns (swapped: bool)
      modifies this`readIndex
      ensures swapped == (old(readIndex) == expected)
      ensures readIndex == if swapped then desired else old(readIndex)
    {
      swapped := readIndex == expected;
      if swapped {
        readIndex := desired;
      }
    }

    /** Appends unless full. The source retries in a loop; with calls atomic
        its back edge, a lost compare-and-swap, is dead. */
    method Push(record: T) returns (ok: bool)
      requires Valid()
      modifies this`writeIndex, this`produced, buffer, writeComplete
      ensures Valid()
      ensures ok == (|old(Contents())| < capacity)
      ensures Contents() == if ok then old(Contents()) + [record] else old(Contents())
    {
      ghost var before := buffer[..];
      var writeIdx := writeIndex;
      var readIdx := readIndex;
      if writeIdx - readIdx >= capacity {
        return false;
      }
      var swapped := CompareAndSwapWrite(writeIdx, writeIdx + 1);
      if swapped {
        var pos := Position(writeIdx);
        writeComplete[pos] := 0;
        buffer[pos] := record;
        writeComplete[pos] := 1;
        produced := produced + 1;
        ok := true;
        WindowAppend(before, readIndex, writeIdx - readIndex, record);
        assert buffer[..] == before[pos := record];
      } else {
        assert false;
      }
    }

    /** Removes the oldest record. Both back edges of the source's retry loop,
        an unset completion flag and a lost compare-and-swap, are dead: a
        sequential Pop never waits. */
    method Pop() returns (r: Option<T>)
      requires Valid()
      modifies this`readIndex, this`consumed, writeComplete
      ensures Valid()
      ensures r.None? <==> |old(Contents())| == 0
      ensures r.None? ==> Contents() == old(Contents())
      ensures r.Some? ==> old(Contents()) == [r.value] + Contents()
    {
      var readIdx := readIndex;
      var writeIdx := writeIndex;
      if readIdx >= writeIdx {
        return None;
      }
      var pos := Position(readIdx);
      if writeComplete[pos] == 0 {
        assert false;
      } else {
        WindowTail(buffer[..], readIdx, writeIdx - readIdx);
        SlotsDistinct(readIdx, writeIdx, capacity);
        var swapped := CompareAndSwapRead(readIdx, readIdx + 1);
        if swapped {
          r := Some(buffer[pos]);
          writeComplete[pos] := 0;
          consumed := consumed + 1;
        } else {
          assert false;
        }
      }
    }

    /** Returns the first `min(maxRecords, size)` records in order. */
    method PopBatch(maxRecords: int) returns (records: seq<T>)
      requires Valid()
      modifies this`readIndex, this`consumed, writeComplete
      ensures Valid()
      ensures old(Contents()) == records + Contents()
      ensures |records| == if maxRecords <= 0 then 0
                           else if maxRecords < |old(Contents())| then maxRecords else |old(Contents())|
    {
      records := [];
      if maxRecords <= 0 {
        return;
      }
      var more := true;
      while |records| < maxRecords && more
        invariant Valid() && old(Contents()) == records + Contents()
        invariant |records| <= maxRecords
        invariant !more ==> |Contents()| == 0
        decreases maxRecords - |records|, more
      {
        var r := Pop();
        match r {
          case Some(record) =>
            records := records + [record];
          case None =>
            more := false;
        }
      }
    }

    /** Waits for `minRecords`. `polls[k]` is what the k-th trip around the loop
        sees; the deadline passes in the end. `pushed` is what the other threads
        managed to add in between, `late` what they added in the last trip. Nothing popped
        is lost, and the first `trips` trips, which no cancel or deadline ended, have taken
        whatever there was to take: waiting ends with the first that brings the minimum. */
    method PopBatchBlocking(minRecords: int, maxRecords: int, polls: seq<Poll<T>>)
      returns (records: seq<T>, error: Option<WaitError>, ghost pushed: seq<T>, ghost trips: nat, ghost late: seq<T>)
      requires Valid()
      requires |polls| > 0 && polls[|polls| - 1].expired
      modifies this`writeIndex, this`produced, this`readIndex, this`consumed, this`waitTimeNs, buffer, writeComplete
      ensures Valid()
      ensures old(Contents()) + pushed == records + Contents()
      ensures error == Some(InvalidCounts) <==> minRecords <= 0 || maxRecords <= 0 || minRecords > maxRecords
      ensures error == Some(InvalidCounts) ==> records == [] && pushed == []
      ensures error != Some(InvalidCounts) ==> |records| <= maxRecords && trips <= |polls| && |late| <= |pushed|
      ensures forall k :: 0 <= k < trips <= |polls| ==> Clear(polls[k])
      ensures error != Some(InvalidCounts) && |records| >= minRecords ==>
                && error.None? && trips > 0
                && |records| == AtMost(|old(Contents())| + |pushed|, maxRecords)
                && (trips > 1 ==> |old(Contents())| + |pushed| - |late| < minRecords)
      ensures error != Some(InvalidCounts) && |records| < minRecords ==>
                && trips < |polls| && !Clear(polls[trips])
                && (error == Some(Cancelled) <==> polls[trips].cancelled)
                && Contents() == (if trips == 0 then old(Contents()) else []) + late
    {
      records, error, pushed, trips, late := [], None, [], 0, [];
      if minRecords <= 0 || maxRecords <= 0 || minRecords > maxRecords {
        return [], Some(InvalidCounts), [], 0, [];
      }
      ghost var queued := Contents();
      var k := 0;
      var waiting := true;
      while |records| < minRecords && waiting
        invariant Valid() && 0 <= k <= |polls| && |records| <= maxRecords && |late| <= |pushed|
        invariant queued + pushed == records + Contents()
        invariant trips <= |polls| && forall j :: 0 <= j < trips ==> Clear(polls[j])
        invariant waiting ==> k < |polls| && k == trips
        invariant waiting ==> Taking(queued, pushed, late, records, Contents(), trips, minRecords, maxRecords)
        invariant !waiting ==> |records| < minRecords && trips < |polls| && !Clear(polls[trips]) && !polls[trips].cancelled
        invariant !waiting ==> Contents() == (if trips == 0 then queued else []) + late
        decreases |polls| - k, waiting
      {
        var poll := polls[k];
        ghost var held := Contents();
        ghost var arrived;
        var batch;
        batch, arrived := ServePoll(poll, maxRecords - |records|);
        if Clear(poll) {
          TripTakes(queued, pushed, late, records, held, trips, minRecords, maxRecords, arrived, batch, Contents());
        } else {
          TripEnds(queued, pushed, late, records, held, trips, minRecords, maxRecords, arrived, batch, Contents());
        }
        pushed, late := pushed + arrived, arrived;
        records := records + batch;
        if poll.cancelled {
          return records, Some(Cancelled), pushed, trips, late;
        }
        if poll.expired {
          waiting := false;
        } else {
          trips := trips + 1;
          if |batch| == 0 && |records| < minRecords {
            waitTimeNs := waitTimeNs + 100000;
          }
        }
        k := k + 1;
      }
    }

    /** The queue's part of one trip: others push, then this caller pops unless
        it is about to give up. */
    method ServePoll(poll: Poll<T>, room: int) returns (batch: seq<T>, ghost arrived: seq<T>)
      requires Valid() && room >= 0
      modifies this`writeIndex, this`produced, this`readIndex, this`consumed, buffer, writeComplete
      ensures Valid()
      ensures old(Contents()) + arrived == batch + Contents()
      ensures |arrived| == AtMost(|poll.arriving|, capacity - |old(Contents())|) && arrived == poll.arriving[..|arrived|]
      ensures |batch| == if Clear(poll) then AtMost(|old(Contents())| + |arrived|, room) else 0
    {
      arrived := Arrive(poll.arriving);
      if poll.cancelled || poll.expired {
        batch := [];
      } else {
        batch := PopBatch(room);
      }
    }

    /** Another producer at work: pushes in order, dropping what does not fit. */
    method Arrive(arriving: seq<T>) returns (arrived: seq<T>)
      requires Valid()
      modifies this`writeIndex, this`produced, buffer, writeComplete
      ensures Valid()
      ensures Contents() == old(Contents()) + arrived
      ensures |arrived| == if |arriving| <= capacity - |old(Contents())| then |arriving| else capacity - |old(Contents())|
      ensures arrived == arriving[..|arrived|]
    {
      arrived := [];
      ghost var held := Contents();
      for i := 0 to |arriving|
        invariant Valid() && Contents() == held + arrived
        invariant |arrived| == if i <= capacity - |held| then i else capacity - |held|
        invariant arrived == arriving[..|arrived|]
      {
        var ok := Push(arriving[i]);
        if ok {
          arrived := arrived + [arriving[i]];
          assert Contents() == held + arrived;
        }
      }
    }

    method Close()
      requires Valid()
      modifies this`closed
      ensures Valid() && Contents() == old(Contents()) && closed
    {
      closed := true;
    }

    method Size() returns (size: int)
      requires Valid()
      ensures size == |Contents()|
    {
      size := writeIndex - readIndex;
    }

    /** Counters and the fill ratio. */
    method Stats() returns (made: int, taken: int, waited: int, utilization: real)
      requires Valid()
      ensures made == produced && taken == consumed && waited == waitTimeNs
      ensures made - taken == |Contents()|
      ensures 0.0 <= utilization <= 1.0
      ensures utilization * capacity as real == |Contents()| as real
    {
      made, taken, waited := produced, consumed, waitTimeNs;
      var size := Size();
      utilization := size as real / capacity as real;
    }

    /** Empties the queue. The completion flags keep their old values: here, where calls
        are atomic, a push overwrites its slot's before any pop can look at it. */
    method Reset()
      requires Valid()
      modifies this
      ensures Valid() && Contents() == [] && !closed
      ensures produced == 0 && consumed == 0 && waitTimeNs == 0
    {
      writeIndex := 0;
      readIndex := 0;
      produced := 0;
      consumed := 0;
      waitTimeNs := 0;
      closed := false;
    }
  }
}
