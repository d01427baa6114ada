/** Metrics over time: a current bucket that is archived, and replaced, once its end has
    passed. */
module TimeSeries {

  import opened Tallies = Counts

  datatype Query = Select | Insert | Update | Delete | Other

  /** A transaction's entries in the bucket's three parallel lists. */
  datatype Txn = Txn(latency: int, stmts: int, rows: int)

  /** A query's entry in the list of rows, and in the one of its kind. */
  datatype Entry = Entry(query: Query, rows: int)

  datatype Tally = Tally(
    tps: nat, qps: nat, errors: nat, selects: nat, inserts: nat, updates: nat, deletes: nat,
    rowsRead: int, rowsModified: int)

  /** What a bucket holds. */
  datatype Counts = Counts(tally: Tally, txns: seq<Txn>, queries: seq<Entry>)

  datatype Bucket = Bucket(start: int, end: int, counts: Counts)

  function Empty(): Counts { Counts(Tally(0, 0, 0, 0, 0, 0, 0, 0, 0), [], []) }

  // ---- Recording.

  /** A transaction counts as one query, too. */
  function Transaction(c: Counts, success: bool, txn: Txn): Counts {
    c.(tally := c.tally.(tps := c.tally.tps + (if success then 1 else 0), qps := c.tally.qps + 1),
       txns := c.txns + [txn])
  }

  function OneQuery(t: Tally, e: Entry): Tally {
    var u := t.(qps := t.qps + 1);
    match e.query
    case Select => u.(selects := t.selects + 1, rowsRead := t.rowsRead + e.rows)
    case Insert => u.(inserts := t.inserts + 1, rowsModified := t.rowsModified + e.rows)
    case Update => u.(updates := t.updates + 1, rowsModified := t.rowsModified + e.rows)
    case Delete => u.(deletes := t.deletes + 1, rowsModified := t.rowsModified + e.rows)
    case Other => u
  }

  function Queried(c: Counts, e: Entry): Counts {
    c.(tally := OneQuery(c.tally, e), queries := c.queries + [e])
  }

  function Failed(c: Counts): Counts {
    c.(tally := c.tally.(errors := c.tally.errors + 1))
  }

  // ---- Adding up.

  function PlusTally(t: Tally, u: Tally): Tally {
    Tally(t.tps + u.tps, t.qps + u.qps, t.errors + u.errors,
          t.selects + u.selects, t.inserts + u.inserts, t.updates + u.updates, t.deletes + u.deletes,
          t.rowsRead + u.rowsRead, t.rowsModified + u.rowsModified)
  }

  /** Adding one bucket's counts after another's. */
  function Plus(c: Counts, d: Counts): Counts {
    Counts(PlusTally(c.tally, d.tally), c.txns + d.txns, c.queries + d.queries)
  }

  /** `e` is `c` and then `d`, without naming the sum; likewise below. */
  ghost predicate IsJoin<T>(e: seq<T>, c: seq<T>, d: seq<T>) {
    && |e| == |c| + |d|
    && (forall i :: 0 <= i < |c| ==> e[i] == c[i])
    && (forall i :: |c| <= i < |e| ==> e[i] == d[i - |c|])
  }

  ghost predicate IsPlus(e: Counts, c: Counts, d: Counts) {
    && e.tally == PlusTally(c.tally, d.tally)
    && IsJoin(e.txns, c.txns, d.txns) && IsJoin(e.queries, c.queries, d.queries)
  }

  lemma IsJoinExactly<T>(e: seq<T>, c: seq<T>, d: seq<T>)
    ensures IsJoin(e, c, d) <==> e == c + d
  {
  }

  lemma IsPlusExactly(e: Counts, c: Counts, d: Counts)
    ensures IsPlus(e, c, d) <==> e == Plus(c, d)
  {
    IsJoinExactly(e.txns, c.txns, d.txns);
    IsJoinExactly(e.queries, c.queries, d.queries);
  }

  function SumTo(buckets: seq<Bucket>, n: nat): Counts
    requires n <= |buckets|
  {
    if n == 0 then Empty() else Plus(SumTo(buckets, n - 1), buckets[n - 1].counts)
  }

  function Sum(buckets: seq<Bucket>): Counts {
    SumTo(buckets, |buckets|)
  }

  lemma {:induction false} SumPrefix(buckets: seq<Bucket>, more: seq<Bucket>, n: nat)
    requires n <= |buckets|
    ensures SumTo(buckets + more, n) == SumTo(buckets, n)
  {
    if n > 0 {
      SumPrefix(buckets, more, n - 1);
    }
  }

  lemma SumNext(buckets: seq<Bucket>, b: Bucket)
    ensures Sum(buckets + [b]) == Plus(Sum(buckets), b.counts)
  {
    SumPrefix(buckets, [b], |buckets|);
  }

  lemma PlusEmpty(c: Counts)
    ensures Plus(c, Empty()) == c
  {
  }

  lemma NoneAdded<T>(e: seq<T>, c: seq<T>, d: seq<T>)
    requires IsJoin(e, c, d)
    ensures |d| == 0 <==> e == c
  {
  }

  /** Leaving out counts without transactions loses nothing exactly when they are empty. */
  lemma LeavingOutExactly(e: Counts, c: Counts, d: Counts)
    requires IsPlus(e, c, d) && !HasTransactions(d)
    ensures e.txns == c.txns && e.tally.tps == c.tally.tps
    ensures e == c <==> d == Empty()
  {
    NoneAdded(e.txns, c.txns, d.txns);
    NoneAdded(e.queries, c.queries, d.queries);
  }

  // ---- What the counters say about the lists.

  /** How many queries of one kind, and their rows. */
  function Queries(queries: seq<Entry>, kind: Query): nat {
    if queries == [] then 0
    else Queries(queries[..|queries| - 1], kind) + (if queries[|queries| - 1].query == kind then 1 else 0)
  }

  function Rows(queries: seq<Entry>, kind: Query): int {
    if queries == [] then 0
    else
      var last := queries[|queries| - 1];
      Rows(queries[..|queries| - 1], kind) + (if last.query == kind then last.rows else 0)
  }

  lemma EntryNext(queries: seq<Entry>, e: Entry, kind: Query)
    ensures Queries(queries + [e], kind) == Queries(queries, kind) + (if e.query == kind then 1 else 0)
    ensures Rows(queries + [e], kind) == Rows(queries, kind) + (if e.query == kind then e.rows else 0)
  {
    assert (queries + [e])[..|queries|] == queries;
  }

  /** Queries per second counts transactions and queries. Rows read are those of selects,
      rows modified those of the three kinds that modify. */
  ghost predicate Consistent(c: Counts) {
    var t, q := c.tally, c.queries;
    && t.tps <= |c.txns| && t.qps == |c.txns| + |q|
    && t.selects == Queries(q, Select) && t.inserts == Queries(q, Insert)
    && t.updates == Queries(q, Update) && t.deletes == Queries(q, Delete)
    && t.rowsRead == Rows(q, Select)
    && t.rowsModified == Rows(q, Insert) + Rows(q, Update) + Rows(q, Delete)
  }

  lemma EmptyConsistent(c: Counts)
    requires c == Empty()
    ensures Consistent(c)
  {
  }

  lemma QueryConsistent(c: Counts, e: Entry)
    requires Consistent(c)
    ensures Consistent(Queried(c, e))
  {
    EntryNext(c.queries, e, Select);
    EntryNext(c.queries, e, Insert);
    EntryNext(c.queries, e, Update);
    EntryNext(c.queries, e, Delete);
  }

  lemma OthersConsistent(c: Counts, success: bool, txn: Txn)
    requires Consistent(c)
    ensures Consistent(Transaction(c, success, txn)) && Consistent(Failed(c))
  {
  }

  // ---- What the callers passed.

  /** How the transactions came out, their entries, the queries, and how many errors. */
  datatype Log = Log(outcomes: seq<bool>, txns: seq<Txn>, queries: seq<Entry>, errors: nat)

  /** The total tells the log: a success is one in `tps`, an error one in `errors`. */
  ghost predicate Tells(total: Counts, given: Log) {
    && total.tally.tps == Count(given.outcomes, true) && total.tally.errors == given.errors
    && total.txns == given.txns && total.queries == given.queries && |given.outcomes| == |given.txns|
  }

  lemma TransactionTold(total: Counts, given: Log, success: bool, txn: Txn)
    requires Tells(total, given)
    ensures Tells(Transaction(total, success, txn),
                  given.(outcomes := given.outcomes + [success], txns := given.txns + [txn]))
  {
    CountAppend(given.outcomes, success, true);
  }

  lemma OthersTold(total: Counts, given: Log, entry: Entry)
    requires Tells(total, given)
    ensures Tells(Queried(total, entry), given.(queries := given.queries + [entry]))
    ensures Tells(Failed(total), given.(errors := given.errors + 1))
  {
  }

  // ---- Counting into the current bucket counts into the total.

  lemma JoinNext<T>(e: seq<T>, c: seq<T>, d: seq<T>, x: T)
    requires IsJoin(e, c, d)
    ensures IsJoin(e + [x], c, d + [x])
  {
  }

  lemma PlusTransaction(e: Counts, c: Counts, d: Counts, success: bool, txn: Txn)
    requires IsPlus(e, c, d)
    ensures IsPlus(Transaction(e, success, txn), c, Transaction(d, success, txn))
    ensures IsPlus(Failed(e), c, Failed(d))
  {
    JoinNext(e.txns, c.txns, d.txns, txn);
  }

  lemma PlusQueried(e: Counts, c: Counts, d: Counts, entry: Entry)
    requires IsPlus(e, c, d)
    ensures IsPlus(Queried(e, entry), c, Queried(d, entry))
  {
    JoinNext(e.queries, c.queries, d.queries, entry);
  }

  ghost predicate Nonempty(buckets: seq<Bucket>) {
    forall i :: 0 <= i < |buckets| ==> buckets[i].start <= buckets[i].end
  }

  /** Each bucket ends strictly before the next begins. */
  ghost predicate Disjoint(buckets: seq<Bucket>) {
    forall i, j :: 0 <= i < j < |buckets| ==> buckets[i].end < buckets[j].start
  }

  ghost predicate Before(buckets: seq<Bucket>, time: int) {
    forall i :: 0 <= i < |buckets| ==> buckets[i].end < time
  }

  /** The times recorded in each bucket lie within it. */
  ghost predicate Timed(buckets: seq<Bucket>, times: seq<seq<int>>) {
    |times| == |buckets| && forall i :: 0 <= i < |buckets| ==> Within(times[i], buckets[i])
  }

  ghost predicate Within(times: seq<int>, b: Bucket) {
    forall k :: 0 <= k < |times| ==> b.start <= times[k] <= b.end
  }

  ghost predicate UpTo(times: seq<int>, time: int) {
    forall k :: 0 <= k < |times| ==> times[k] <= time
  }

  /** What the final bucket is archived for. */
  predicate HasTransactions(c: Counts) {
    c.tally.tps > 0 || |c.txns| > 0
  }

  /** Archived buckets with the times recorded in each. */
  ghost predicate Archive(buckets: seq<Bucket>, times: seq<seq<int>>) {
    Nonempty(buckets) && Disjoint(buckets) && Timed(buckets, times)
  }

  /** A bucket later than all archived ones, with the times recorded in it so far. */
  ghost predicate Live(b: Bucket, times: seq<int>, buckets: seq<Bucket>) {
    b.start <= b.end && Before(buckets, b.start) && Within(times, b)
  }

  /** All recorded is what is archived and what the current bucket counts. */
  ghost predicate Accounts(total: Counts, buckets: seq<Bucket>, counts: Counts) {
    IsPlus(total, Sum(buckets), counts)
  }

  lemma ArchiveNext(buckets: seq<Bucket>, times: seq<seq<int>>, b: Bucket, ts: seq<int>,
                    buckets': seq<Bucket>, times': seq<seq<int>>)
    requires Archive(buckets, times) && Live(b, ts, buckets)
    requires buckets' == buckets + [b] && times' == times + [ts]
    ensures Archive(buckets', times')
    ensures forall t :: t > b.end ==> Before(buckets', t)
  {
  }

  lemma ArchiveEmpty(buckets: seq<Bucket>, archivedTimes: seq<seq<int>>, current: Bucket, currentTimes: seq<int>, clock: int)
    requires |buckets| == |archivedTimes| == |currentTimes| == 0 && current.start <= current.end
    ensures Archive(buckets, archivedTimes) && Live(current, currentTimes, buckets) && UpTo(currentTimes, clock)
  {
  }

  lemma NothingJoins<T>(e: seq<T>, c: seq<T>, d: seq<T>)
    requires |e| == |c| == |d| == 0
    ensures IsJoin(e, c, d)
  {
  }

  lemma AccountsEmpty(total: Counts, buckets: seq<Bucket>, counts: Counts)
    requires total == Empty() && |buckets| == 0 && counts == Empty()
    ensures Accounts(total, buckets, counts)
  {
    NothingJoins(total.txns, Sum(buckets).txns, counts.txns);
    NothingJoins(total.queries, Sum(buckets).queries, counts.queries);
  }

  lemma AccountsNext(total: Counts, buckets: seq<Bucket>, b: Bucket, buckets': seq<Bucket>)
    requires Accounts(total, buckets, b.counts) && buckets' == buckets + [b]
    ensures Accounts(total, buckets', Empty()) && Sum(buckets') == total
  {
    SumNext(buckets, b);
    IsPlusExactly(total, Sum(buckets), b.counts);
    PlusEmpty(total);
    IsPlusExactly(total, total, Empty());
  }

  /** Ending the live bucket early, or late, keeps it later than the archived ones. */
  lemma EndAt(b: Bucket, times: seq<int>, buckets: seq<Bucket>, time: int)
    requires Live(b, times, buckets) && b.start <= time && UpTo(times, time)
    ensures Live(b.(end := time), times, buckets)
  {
  }

  lemma UpToLater(times: seq<int>, time: int, later: int)
    requires UpTo(times, time) && time <= later
    ensures UpTo(times, later) && UpTo(times + [later], later)
  {
  }

  /** The archive and the current bucket once the clock shows `now`. */
  function Turned(buckets: seq<Bucket>, current: Bucket, now: int, interval: int): (seq<Bucket>, Bucket) {
    if now > current.end then (buckets + [current], Bucket(now, now + interval, Empty())) else (buckets, current)
  }

  /** Everything recorded is in its place. */
  ghost predicate Good(interval: int, buckets: seq<Bucket>, current: Bucket, total: Counts, given: Log,
                       archivedTimes: seq<seq<int>>, currentTimes: seq<int>, clock: int)
  {
    && interval >= 0 && Tells(total, given)
    && current.start <= clock && UpTo(currentTimes, clock)
    && Archive(buckets, archivedTimes) && Live(current, currentTimes, buckets)
    && Accounts(total, buckets, current.counts)
    && Consistent(current.counts) && Consistent(total)
  }

  lemma FreshGood(interval: int, buckets: seq<Bucket>, current: Bucket, total: Counts, given: Log,
                  archivedTimes: seq<seq<int>>, currentTimes: seq<int>, clock: int)
    requires interval >= 0 && current.start <= clock && current.start <= current.end
    requires |buckets| == |archivedTimes| == |currentTimes| == 0
    requires total == Empty() && current.counts == Empty() && given == Log([], [], [], 0)
    ensures Good(interval, buckets, current, total, given, archivedTimes, currentTimes, clock)
  {
    ArchiveEmpty(buckets, archivedTimes, current, currentTimes, clock);
    AccountsEmpty(total, buckets, current.counts);
    EmptyConsistent(total);
    EmptyConsistent(current.counts);
  }

  class TimeSeriesMetrics {
    const interval: int
    var buckets: seq<Bucket>
    var current: Bucket
    /** All that was recorded, what callers passed, when, and the latest time read. */
    ghost var total: Counts
    ghost var given: Log
    ghost var archivedTimes: seq<seq<int>>
    ghost var currentTimes: seq<int>
    ghost var clock: int

    ghost predicate Valid()
      reads this
    {
      Good(interval, buckets, current, total, given, archivedTimes, currentTimes, clock)
    }

    /** The bucket's start and its end come from two readings of the clock. */
    constructor (interval: int, first: int, second: int)
      requires interval >= 0 && first <= second
      ensures this.interval == interval && clock == second
      ensures buckets == [] && total == Empty() && given == Log([], [], [], 0)
      ensures current == Bucket(first, second + interval, Empty())
      ensures Valid()
    {
      this.interval := interval;
      buckets, current := [], Bucket(first, second + interval, Empty());
      total, given, archivedTimes, currentTimes, clock := Empty(), Log([], [], [], 0), [], [], second;
      new;
      FreshGood(interval, buckets, current, total, given, archivedTimes, currentTimes, clock);
    }

    /** Afterwards the current bucket covers `now`, and nothing counted has moved or
        been lost. */
    method RotateIfNeeded(now: int)
      requires clock <= now
      modifies this
      ensures clock == now && total == old(total) && given == old(given)
      ensures if now > old(current.end)
              then buckets == old(buckets) + [old(current)] && current == Bucket(now, now + interval, Empty())
              else buckets == old(buckets) && current == old(current)
      ensures (buckets, current) == Turned(old(buckets), old(current), now, interval)
      ensures old(Valid()) ==> Valid() && current.start <= now <= current.end
    {
      ghost var valid := Valid();
      if valid {
        UpToLater(currentTimes, clock, now);
      }
      clock := now;
      if now > current.end {
        ghost var before, times, full := buckets, archivedTimes, current;
        buckets := buckets + [current];
        archivedTimes := archivedTimes + [currentTimes];
        current := Bucket(now, now + interval, Empty());
        EmptyConsistent(current.counts);
        if valid {
          ArchiveNext(before, times, full, currentTimes, buckets, archivedTimes);
          AccountsNext(total, before, full, buckets);
        }
        currentTimes := [];
      }
    }

    method RecordTransaction(success: bool, txn: Txn, now: int)
      requires clock <= now
      modifies this
      ensures clock == now && total == Transaction(old(total), success, txn)
      ensures given == old(given).(outcomes := old(given).outcomes + [success], txns := old(given).txns + [txn])
      ensures var turned := Turned(old(buckets), old(current), now, interval);
              buckets == turned.0 && current == turned.1.(counts := Transaction(turned.1.counts, success, txn))
      ensures old(Valid()) ==> Valid() && |currentTimes| > 0 && currentTimes[|currentTimes| - 1] == now
    {
      ghost var valid := Valid();
      RotateIfNeeded(now);
      if valid {
        PlusTransaction(total, Sum(buckets), current.counts, success, txn);
        OthersConsistent(current.counts, success, txn);
        OthersConsistent(total, success, txn);
        TransactionTold(total, given, success, txn);
      }
      current := current.(counts := Transaction(current.counts, success, txn));
      given := given.(outcomes := given.outcomes + [success], txns := given.txns + [txn]);
      total, currentTimes := Transaction(total, success, txn), currentTimes + [now];
    }

    method RecordQuery(entry: Entry, now: int)
      requires clock <= now
      modifies this
      ensures clock == now && total == Queried(old(total), entry)
      ensures given == old(given).(queries := old(given).queries + [entry])
      ensures var turned := Turned(old(buckets), old(current), now, interval);
              buckets == turned.0 && current == turned.1.(counts := Queried(turned.1.counts, entry))
      ensures old(Valid()) ==> Valid() && |currentTimes| > 0 && currentTimes[|currentTimes| - 1] == now
    {
      ghost var valid := Valid();
      RotateIfNeeded(now);
      if valid {
        PlusQueried(total, Sum(buckets), current.counts, entry);
        QueryConsistent(current.counts, entry);
        QueryConsistent(total, entry);
        OthersTold(total, given, entry);
      }
      current := current.(counts := Queried(current.counts, entry));
      given := given.(queries := given.queries + [entry]);
      total, currentTimes := Queried(total, entry), currentTimes + [now];
    }

    method RecordError(now: int)
      requires clock <= now
      modifies this
      ensures clock == now && total == Failed(old(total))
      ensures given == old(given).(errors := old(given).errors + 1)
      ensures var turned := Turned(old(buckets), old(current), now, interval);
              buckets == turned.0 && current == turned.1.(counts := Failed(turned.1.counts))
      ensures old(Valid()) ==> Valid() && |currentTimes| > 0 && currentTimes[|currentTimes| - 1] == now
    {
      ghost var valid := Valid();
      RotateIfNeeded(now);
      if valid {
        PlusTransaction(total, Sum(buckets), current.counts, true, Txn(0, 0, 0));
        OthersConsistent(current.counts, true, Txn(0, 0, 0));
        OthersConsistent(total, true, Txn(0, 0, 0));
        OthersTold(total, given, Entry(Other, 0));
      }
      current := current.(counts := Failed(current.counts));
      given := given.(errors := given.errors + 1);
      total, currentTimes := Failed(total), currentTimes + [now];
    }

    /** Archives the current bucket, ending now. The archive then adds up to all that was
        recorded, except exactly when the last bucket has no transaction but has a query
        or an error; those are left out. */
    method Finalize(now: int)
      requires clock <= now
      modifies this`buckets, this`current, this`clock, this`archivedTimes
      ensures clock == now
      ensures if old(current).counts.tally.tps > 0 || old(current).counts.txns != []
              then current == old(current).(end := now) && buckets == old(buckets) + [current]
              else current == old(current) && buckets == old(buckets)
      ensures old(Valid()) ==>
                && Archive(buckets, archivedTimes)
                && Sum(buckets).tally.tps == Count(given.outcomes, true) && Sum(buckets).txns == given.txns
                && (Sum(buckets).tally.errors == given.errors && Sum(buckets).queries == given.queries
                    <==> current.counts.txns != [] || (current.counts.tally.errors == 0 && current.counts.queries == []))
                && (Sum(buckets) == total <==> current.counts.txns != [] || current.counts == Empty())
    {
      ghost var valid, before, times, time := Valid(), buckets, archivedTimes, clock;
      clock := now;
      if HasTransactions(current.counts) {
        if valid {
          UpToLater(currentTimes, time, now);
          EndAt(current, currentTimes, buckets, now);
        }
        current := current.(end := now);
        buckets := buckets + [current];
        archivedTimes := archivedTimes + [currentTimes];
        if valid {
          ArchiveNext(before, times, current, currentTimes, buckets, archivedTimes);
          AccountsNext(total, before, current, buckets);
        }
      } else {
        if valid {
          LeavingOutExactly(total, Sum(buckets), current.counts);
        }
      }
    }

    /** Called again, it archives the same bucket a second time. */
    method FinalizeTwice(now: int, later: int)
      requires Valid() && clock <= now <= later
      modifies this`buckets, this`current, this`clock, this`archivedTimes
      ensures Sum(buckets).tally.tps == total.tally.tps <==> old(current).counts.tally.tps == 0
      ensures Sum(buckets).txns == total.txns <==> old(current).counts.txns == []
    {
      Finalize(now);
      SumNext(buckets, current.(end := later));
      Finalize(later);
    }

    /** A record made after the archive was closed: at a later time it first archives the
        last bucket a second time, and otherwise it misses the archive. */
    method RecordAfterFinalize(success: bool, txn: Txn, now: int, later: int)
      requires Valid() && clock <= now <= later && HasTransactions(current.counts)
      modifies this
      ensures var last := old(current).(end := now);
              if later > now
              then && buckets == old(buckets) + [last] + [last]
                   && current == Bucket(later, later + interval, Transaction(Empty(), success, txn))
              else && buckets == old(buckets) + [last]
                   && current == last.(counts := Transaction(last.counts, success, txn))
      ensures Sum(buckets) == (if later > now then Plus(old(total), old(current).counts) else old(total))
      ensures Sum(buckets) == old(total) <==> later == now
    {
      Finalize(now);
      SumNext(buckets, current);
      RecordTransaction(success, txn, later);
    }
  }

  lemma QueryCounts(c: Counts, e: Entry)
    ensures Queried(c, e).tally.qps > 0 && HasTransactions(Queried(c, e)) == HasTransactions(c)
    ensures Queried(c, e) != Empty()
  {
  }

  /** A query can be lost, for one in a new series: with no transaction in the current
      bucket, what is recorded now is not in the archive. */
  method LoseAQuery(series: TimeSeriesMetrics, entry: Entry, now: int)
    requires series.Valid() && series.clock <= now <= series.current.end && !HasTransactions(series.current.counts)
    modifies series
    ensures series.total == Queried(old(series.total), entry) && series.buckets == old(series.buckets)
    ensures Sum(series.buckets) != series.total
  {
    QueryCounts(series.current.counts, entry);
    series.RecordQuery(entry, now);
    series.Finalize(now);
  }
}
