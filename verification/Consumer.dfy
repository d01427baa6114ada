/** The bulk-insert consumer loop as a client of the ring buffer: every record
    it takes out of the queue reaches exactly one insert attempt. */
module Consumers {
  import opened Options
  import opened Counts
  import opened RingBuffers

  function Flatten<T>(batches: seq<seq<T>>): seq<T>
  {
    if batches == [] then [] else Flatten(batches[..|batches| - 1]) + batches[|batches| - 1]
  }

  lemma FlattenSnoc<T>(batches: seq<seq<T>>, batch: seq<T>)
    ensures Flatten(batches + [batch]) == Flatten(batches) + batch
  {
    assert (batches + [batch])[..|batches|] == batches;
  }

  /** The rows of the batches that were inserted. */
  function Inserted<T>(attempts: seq<seq<T>>, outcomes: seq<bool>): nat
    requires |attempts| == |outcomes|
  {
    if attempts == [] then 0
    else
      var n := |attempts| - 1;
      Inserted(attempts[..n], outcomes[..n]) + (if outcomes[n] then |attempts[n]| else 0)
  }

  lemma InsertedSnoc<T>(attempts: seq<seq<T>>, outcomes: seq<bool>, batch: seq<T>, inserted: bool)
    requires |attempts| == |outcomes|
    ensures Inserted(attempts + [batch], outcomes + [inserted]) ==
            Inserted(attempts, outcomes) + (if inserted then |batch| else 0)
  {
    assert (attempts + [batch])[..|attempts|] == attempts && (outcomes + [inserted])[..|outcomes|] == outcomes;
  }

  /** Each successful insert is one transaction and counts its rows; each failed one is
      one error. */
  ghost predicate Books<T>(attempts: seq<seq<T>>, outcomes: seq<bool>, transactions: int, errors: int, rows: int) {
    && |outcomes| == |attempts|
    && transactions == Count(outcomes, true) && errors == Count(outcomes, false)
    && rows == Inserted(attempts, outcomes)
  }

  lemma BooksNext<T>(attempts: seq<seq<T>>, outcomes: seq<bool>, transactions: int, errors: int, rows: int,
                     batch: seq<T>, inserted: bool)
    requires Books(attempts, outcomes, transactions, errors, rows)
    ensures Books(attempts + [batch], outcomes + [inserted],
                  if inserted then transactions + 1 else transactions,
                  if inserted then errors else errors + 1,
                  if inserted then rows + |batch| else rows)
  {
    InsertedSnoc(attempts, outcomes, batch, inserted);
    CountAppend(outcomes, inserted, true);
    CountAppend(outcomes, inserted, false);
  }

  /** A batch has moved from the queue to the attempts. */
  lemma Handed<T>(attempts: seq<seq<T>>, before: seq<T>, pushed: seq<T>, batch: seq<T>, rest: seq<T>)
    requires before + pushed == batch + rest
    ensures (Flatten(attempts) + before) + pushed == Flatten(attempts + [batch]) + rest
  {
    FlattenSnoc(attempts, batch);
    var done := Flatten(attempts);
    assert done + (batch + rest) == (done + batch) + rest && done + (before + pushed) == (done + before) + pushed;
  }

  /** One trip around the consumer's loop: was its context cancelled, what did
      the blocking pop see, and would the insert succeed. */
  datatype Turn<T> = Turn(cancelled: bool, polls: seq<Poll<T>>, inserted: bool)

  class Consumer<T(0)> {
    const ring: RingBuffer<T>
    const batchSize: int
    /** The batches handed to an insert, and whether it succeeded. */
    var attempts: seq<seq<T>>
    ghost var outcomes: seq<bool>
    var transactions: int
    var errors: int
    var totalInserted: int

    constructor (ring: RingBuffer<T>, batchSize: int)
      ensures this.ring == ring && this.batchSize == batchSize
      ensures attempts == [] && outcomes == [] && Tallied()
    {
      this.ring := ring;
      this.batchSize := batchSize;
      attempts, outcomes, transactions, errors, totalInserted := [], [], 0, 0, 0;
    }

    ghost predicate Tallied()
      reads this
    {
      Books(attempts, outcomes, transactions, errors, totalInserted)
    }

    /** Takes one batch and inserts it; `stop` when the queue is closed and
        drained. Only a pop without error is followed by an insert, and a pop
        with an error has taken nothing, so no record falls in between. What is queued
        when the wait begins is taken at once, unless that is cancelled or too late. */
    method Serve(turn: Turn<T>) returns (stop: bool, ghost pushed: seq<T>)
      requires ring.Valid() && Tallied() && |turn.polls| > 0 && turn.polls[|turn.polls| - 1].expired
      modifies this, ring`writeIndex, ring`produced, ring`readIndex, ring`consumed, ring`waitTimeNs,
               ring.buffer, ring.writeComplete
      ensures ring.Valid()
      ensures old(Flatten(attempts) + ring.Contents()) + pushed == Flatten(attempts) + ring.Contents()
      ensures Tallied()
      ensures (attempts == old(attempts) && outcomes == old(outcomes)) ||
              (outcomes == old(outcomes) + [turn.inserted] &&
               exists b :: attempts == old(attempts) + [b] && 1 <= |b| <= batchSize)
      ensures stop <==> attempts == old(attempts) && ring.closed && |ring.Contents()| == 0
      ensures batchSize >= 1 && Clear(turn.polls[0]) && |old(ring.Contents())| > 0 ==> |attempts| > |old(attempts)|
    {
      stop := false;
      var records, error;
      ghost var before := ring.Contents();
      ghost var trips, late;
      records, error, pushed, trips, late := ring.PopBatchBlocking(1, batchSize, turn.polls);
      if error.Some? || |records| == 0 {
        var size := ring.Size();
        stop := ring.closed && size == 0;
        assert Flatten(attempts) + (before + pushed) == Flatten(attempts) + before + pushed;
        return;
      }
      Handed(attempts, before, pushed, records, ring.Contents());
      Insert(records, turn.inserted);
    }

    /** Hands a batch to the insert, and counts how it came out. */
    method Insert(records: seq<T>, inserted: bool)
      requires Tallied()
      modifies this`attempts, this`outcomes, this`transactions, this`errors, this`totalInserted
      ensures Tallied()
      ensures attempts == old(attempts) + [records] && outcomes == old(outcomes) + [inserted]
    {
      BooksNext(attempts, outcomes, transactions, errors, totalInserted, records, inserted);
      attempts, outcomes := attempts + [records], outcomes + [inserted];
      if inserted {
        transactions := transactions + 1;
        totalInserted := totalInserted + |records|;
      } else {
        errors := errors + 1;
      }
    }

    /** Every trip can take something: it is not cancelled, and the wait does not end at once. */
    ghost predicate Steady(turns: seq<Turn<T>>) {
      && batchSize >= 1
      && forall k :: 0 <= k < |turns| ==>
           !turns[k].cancelled && |turns[k].polls| > 0 && Clear(turns[k].polls[0])
    }

    /** Runs until cancelled, or until the queue is closed and empty. If every trip can take
        something, then after as many trips as records were queued all of those have
        reached an insert. */
    method Run(turns: seq<Turn<T>>) returns (ghost pushed: seq<T>)
      requires ring.Valid() && Tallied()
      requires forall t :: t in turns ==> |t.polls| > 0 && t.polls[|t.polls| - 1].expired
      modifies this, ring`writeIndex, ring`produced, ring`readIndex, ring`consumed, ring`waitTimeNs,
               ring.buffer, ring.writeComplete
      ensures ring.Valid()
      ensures old(Flatten(attempts) + ring.Contents()) + pushed == Flatten(attempts) + ring.Contents()
      ensures Tallied()
      ensures old(attempts) <= attempts && old(outcomes) <= outcomes
      ensures Steady(turns) && |turns| >= |old(ring.Contents())| ==>
                |Flatten(attempts)| >= |old(Flatten(attempts))| + |old(ring.Contents())|
    {
      pushed := [];
      ghost var done, queued := Flatten(attempts), ring.Contents();
      for k := 0 to |turns|
        invariant ring.Valid() && (done + queued) + pushed == Flatten(attempts) + ring.Contents()
        invariant Tallied() && old(attempts) <= attempts && old(outcomes) <= outcomes
        invariant |Flatten(attempts)| >= |done|
        invariant Steady(turns) ==> |Flatten(attempts)| >= |done| + AtMost(|queued|, k)
      {
        if turns[k].cancelled {
          return;
        }
        ghost var earlier, start, before := pushed, Flatten(attempts), attempts;
        ghost var held := ring.Contents();
        var stop;
        ghost var more;
        assert turns[k] in turns;
        stop, more := Serve(turns[k]);
        Further(done + queued, earlier, start, held, more, Flatten(attempts), ring.Contents());
        Longer(before, attempts);
        pushed := earlier + more;
        if stop {
          Drained(done, queued, pushed, Flatten(attempts), ring.Contents());
          return;
        }
      }
    }
  }

  lemma Further<T>(start: seq<T>, earlier: seq<T>, done: seq<T>, held: seq<T>, more: seq<T>, done': seq<T>, held': seq<T>)
    requires start + earlier == done + held && (done + held) + more == done' + held'
    ensures start + (earlier + more) == done' + held'
  {
    assert start + (earlier + more) == (start + earlier) + more;
  }

  /** A further batch, if any, and its records. */
  lemma Longer<T>(before: seq<seq<T>>, after: seq<seq<T>>)
    requires after == before || exists b :: after == before + [b] && 1 <= |b|
    ensures |Flatten(after)| >= |Flatten(before)|
    ensures after != before ==> |Flatten(after)| > |Flatten(before)|
  {
    if after != before {
      var b :| after == before + [b] && 1 <= |b|;
      FlattenSnoc(before, b);
    }
  }

  lemma Drained<T>(done: seq<T>, queued: seq<T>, pushed: seq<T>, done': seq<T>, held: seq<T>)
    requires (done + queued) + pushed == done' + held && held == []
    ensures |done'| >= |done| + |queued|
  {
    assert |(done + queued) + pushed| == |done' + held|;
  }
}
