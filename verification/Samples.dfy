/** Latency recorders: a sample buffer that overwrites itself once full, at a place
    chosen by a counter that the workers' own buffers also advance, and a histogram. */
module Samples {

  import opened Bits
  import opened Counts

  // ---- Where a sample goes.

  /** What the place of sample `k` is worked out from: its number while the buffer fills,
      and then `spots[k]`, the counter when it was recorded. */
  function Way(k: nat, spots: seq<nat>, most: nat): nat
    requires k < |spots|
  {
    if most == 0 || k < most then k else spots[k]
  }

  /** A limit of zero means no limit. */
  function Place(k: nat, spots: seq<nat>, most: nat): nat
    requires k < |spots|
  {
    if most == 0 then k else Slot(Way(k, spots, most), most)
  }

  /** No later sample went to the same place. */
  ghost predicate IsLatest(k: nat, spots: seq<nat>, most: nat)
    requires k < |spots|
  {
    forall j :: k < j < |spots| ==> Place(j, spots, most) != Place(k, spots, most)
  }

  function Kept(n: nat, most: nat): nat {
    if most == 0 || n <= most then n else most
  }

  /** The buffer holds, at each place, the latest sample that went there. */
  ghost predicate Holds(samples: seq<int>, log: seq<int>, spots: seq<nat>, most: nat) {
    && |spots| == |log|
    && |samples| == Kept(|log|, most)
    && forall k :: 0 <= k < |log| && IsLatest(k, spots, most) ==>
         Place(k, spots, most) < |samples| && samples[Place(k, spots, most)] == log[k]
  }

  function Write(samples: seq<int>, x: int, spot: nat, most: nat): seq<int>
    requires most == 0 || |samples| <= most
  {
    if most == 0 || |samples| < most then samples + [x] else samples[Slot(spot, most) := x]
  }

  /** One more sample, whatever the counter has been through. */
  lemma WriteHolds(samples: seq<int>, log: seq<int>, spots: seq<nat>, most: nat, x: int, spot: nat)
    requires Holds(samples, log, spots, most)
    ensures Holds(Write(samples, x, spot, most), log + [x], spots + [spot], most)
  {
    var n, more := |log|, spots + [spot];
    assert Place(n, more, most) == if most == 0 || n < most then n else Slot(spot, most);
    forall k | 0 <= k < |more| && IsLatest(k, more, most)
      ensures Place(k, more, most) < Kept(n + 1, most)
      ensures Write(samples, x, spot, most)[Place(k, more, most)] == (log + [x])[k]
    {
      if k < n {
        assert Place(n, more, most) != Place(k, more, most);
        LatestBefore(k, spots, spot, most);
      }
    }
  }

  lemma LatestBefore(k: nat, spots: seq<nat>, spot: nat, most: nat)
    requires k < |spots| && IsLatest(k, spots + [spot], most)
    ensures IsLatest(k, spots, most) && Place(k, spots + [spot], most) == Place(k, spots, most)
  {
    forall j | k < j < |spots|
      ensures Place(j, spots, most) != Place(k, spots, most)
    {
      assert Place(j, spots + [spot], most) != Place(k, spots + [spot], most);
    }
  }

  /** Nothing but these samples has advanced the counter. */
  ghost predicate Undisturbed(spots: seq<nat>) {
    forall k :: 0 <= k < |spots| ==> spots[k] == k
  }

  lemma LastAreLatest(spots: seq<nat>, most: nat, k: nat)
    requires Undisturbed(spots) && |spots| - Kept(|spots|, most) <= k < |spots|
    ensures IsLatest(k, spots, most)
  {
    forall j | k < j < |spots|
      ensures Place(j, spots, most) != Place(k, spots, most)
    {
      if most > 0 && Slot(j, most) == Slot(k, most) {
        SlotInjective(j, k, most);
      }
    }
  }

  /** If nothing else advances the counter, the buffer holds exactly the last samples,
      sample `k` at `k mod most`. */
  lemma KeepsTheLast(samples: seq<int>, log: seq<int>, spots: seq<nat>, most: nat, k: nat)
    requires Holds(samples, log, spots, most) && Undisturbed(spots)
    requires |log| - |samples| <= k < |log|
    ensures var place := if most == 0 then k else k % most;
            place < |samples| && samples[place] == log[k]
  {
    LastAreLatest(spots, most, k);
    if most > 0 {
      SlotIsMod(k, most);
    }
  }

  // ---- One worker records everything.

  /** Both buffers fill together; from then on each call advances the counter twice. The
      shared buffer reads it before (`lead` 0), the worker's own after (`lead` 2). */
  ghost predicate SoloSpots(spots: seq<nat>, most: nat, lead: nat) {
    most > 0 && forall k :: most <= k < |spots| ==> spots[k] == 2 * k - most + lead
  }

  /** What the counter shows after `n` such calls. */
  function SoloCount(n: nat, most: nat): nat {
    if n <= most then n else 2 * n - most
  }

  /** Everything a worker has recorded, the counter each time, and how it came out. */
  datatype Trace = Trace(log: seq<int>, spots: seq<nat>, outcomes: seq<bool>)

  ghost predicate SoloState(log: seq<int>, spots: seq<nat>, ownLog: seq<int>, ownSpots: seq<nat>, count: nat, most: nat) {
    && ownLog == log && |ownSpots| == |spots| == |log| && count == SoloCount(|log|, most)
    && SoloSpots(spots, most, 0) && SoloSpots(ownSpots, most, 2)
  }

  lemma SoloNext(log: seq<int>, spots: seq<nat>, ownLog: seq<int>, ownSpots: seq<nat>, count: nat, most: nat,
                 x: int, after: nat)
    requires SoloState(log, spots, ownLog, ownSpots, count, most)
    requires after == count + 1 + if |log| >= most then 1 else 0
    ensures SoloState(log + [x], spots + [count], ownLog + [x], ownSpots + [after], after, most)
  {
  }

  // ---- The histogram.

  /** Upper bounds in nanoseconds. */
  const BOUNDS: seq<int> :=
    [100_000, 500_000, 1_000_000, 2_000_000, 5_000_000, 10_000_000, 20_000_000,
     50_000_000, 100_000_000, 200_000_000, 500_000_000, 1_000_000_000]

  const BUCKETS: nat := 13

  /** The histogram's keys. They differ, so the model keys it by position instead. */
  const NAMES: seq<string> :=
    ["0.1ms", "0.5ms", "1.0ms", "2.0ms", "5.0ms", "10.0ms", "20.0ms",
     "50.0ms", "100.0ms", "200.0ms", "500.0ms", "1000.0ms", "+inf"]

  lemma BoundsRise()
    ensures |BOUNDS| + 1 == BUCKETS
    ensures forall i, j :: 0 <= i < j < |BOUNDS| ==> BOUNDS[i] < BOUNDS[j]
  {
  }

  predicate Distinct(names: seq<string>) {
    forall i, j :: 0 <= i < j < |names| ==> names[i] != names[j]
  }

  function NameLength(i: nat): nat {
    if i < 5 then 5 else if i < 8 then 6 else if i < 11 then 7 else if i == 11 then 8 else 4
  }

  lemma NamesDistinct()
    ensures |NAMES| == BUCKETS && Distinct(NAMES)
  {
    assert forall i :: 0 <= i < |NAMES| - 1 ==> |NAMES[i]| >= 5 && NAMES[i][0] != '+';
    assert forall i :: 0 <= i < 13 ==> |NAMES[i]| == NameLength(i);
    assert NAMES[0][0] == '0' && NAMES[0][2] == '1' && NAMES[1][2] == '5';
    assert NAMES[2][0] == '1' && NAMES[3][0] == '2' && NAMES[4][0] == '5' && NAMES[1][0] == '0';
    assert NAMES[5][0] == '1' && NAMES[6][0] == '2' && NAMES[7][0] == '5';
    assert NAMES[8][0] == '1' && NAMES[9][0] == '2' && NAMES[10][0] == '5';
  }

  function Digit(d: nat): char
    requires d < 10
  {
    '0' + d as char
  }

  function Digits(n: nat): string {
    (if n < 10 then [] else Digits(n / 10)) + [Digit(n % 10)]
  }

  /** A number of tenths of a millisecond, printed with one decimal. */
  function Printed(tenths: nat): string {
    Digits(tenths / 10) + ['.', Digit(tenths % 10), 'm', 's']
  }

  lemma Prints(tenths: nat, whole: string, d: char)
    requires whole == Digits(tenths / 10) && d == Digit(tenths % 10)
    ensures Printed(tenths) == whole + ['.', d, 'm', 's']
  {
  }

  lemma SmallNames(i: nat)
    requires i < 5
    ensures NAMES[i] == Printed(BOUNDS[i] / 100_000)
  {
    assert Digits(0) == ['0'] && Digits(1) == ['1'] && Digits(2) == ['2'] && Digits(5) == ['5'];
    match i
    case 0 => Prints(1, ['0'], '1');
    case 1 => Prints(5, ['0'], '5');
    case 2 => Prints(10, ['1'], '0');
    case 3 => Prints(20, ['2'], '0');
    case _ => Prints(50, ['5'], '0');
  }

  lemma TensNames(i: nat)
    requires 5 <= i < 8
    ensures NAMES[i] == Printed(BOUNDS[i] / 100_000)
  {
    assert Digits(1) == ['1'] && Digits(2) == ['2'] && Digits(5) == ['5'];
    match i
    case 5 => assert Digits(10) == ['1', '0']; Prints(100, ['1', '0'], '0');
    case 6 => assert Digits(20) == ['2', '0']; Prints(200, ['2', '0'], '0');
    case _ => assert Digits(50) == ['5', '0']; Prints(500, ['5', '0'], '0');
  }

  lemma HundredsNames(i: nat)
    requires 8 <= i < 10
    ensures NAMES[i] == Printed(BOUNDS[i] / 100_000)
  {
    if i == 8 {
      assert Digits(1) == ['1'] && Digits(10) == ['1', '0'] && Digits(100) == ['1', '0', '0'];
      Prints(1000, ['1', '0', '0'], '0');
    } else {
      assert Digits(2) == ['2'] && Digits(20) == ['2', '0'] && Digits(200) == ['2', '0', '0'];
      Prints(2000, ['2', '0', '0'], '0');
    }
  }

  lemma LargeNames(i: nat)
    requires 10 <= i < 12
    ensures NAMES[i] == Printed(BOUNDS[i] / 100_000)
  {
    if i == 10 {
      assert Digits(5) == ['5'] && Digits(50) == ['5', '0'] && Digits(500) == ['5', '0', '0'];
      Prints(5000, ['5', '0', '0'], '0');
    } else {
      assert Digits(1) == ['1'] && Digits(10) == ['1', '0'] && Digits(100) == ['1', '0', '0'];
      assert Digits(1000) == ['1', '0', '0', '0'];
      Prints(10000, ['1', '0', '0', '0'], '0');
    }
  }

  /** Each name but the last is its bucket's bound, printed in milliseconds. */
  lemma NamesTell(i: nat)
    requires i < |BOUNDS|
    ensures i < |NAMES| && BOUNDS[i] % 100_000 == 0 && BOUNDS[i] >= 0 && NAMES[i] == Printed(BOUNDS[i] / 100_000)
  {
    if i < 5 {
      SmallNames(i);
    } else if i < 8 {
      TensNames(i);
    } else if i < 10 {
      HundredsNames(i);
    } else {
      LargeNames(i);
    }
  }

  /** The first bound that encloses the latency; past the end if none does. */
  function BucketFrom(ns: int, i: nat): (b: nat)
    requires i <= |BOUNDS|
    ensures i <= b <= |BOUNDS|
    decreases |BOUNDS| - i
  {
    if i == |BOUNDS| || ns <= BOUNDS[i] then i else BucketFrom(ns, i + 1)
  }

  function Bucket(ns: int): (b: nat)
    ensures b < BUCKETS
  {
    BucketFrom(ns, 0)
  }

  lemma {:induction false} BucketFromExactly(ns: int, i: nat, b: nat)
    requires i <= b <= |BOUNDS| && (i > 0 ==> BOUNDS[i - 1] < ns)
    ensures b == BucketFrom(ns, i) <==> (b == 0 || BOUNDS[b - 1] < ns) && (b == |BOUNDS| || ns <= BOUNDS[b])
    decreases |BOUNDS| - i
  {
    BoundsRise();
    if i < |BOUNDS| && ns > BOUNDS[i] && b > i {
      BucketFromExactly(ns, i + 1, b);
    }
  }

  /** The bucket is the one whose bound is the least that encloses the latency. */
  lemma BucketExactly(ns: int, b: nat)
    requires b <= |BOUNDS|
    ensures b == Bucket(ns) <==> (b == 0 || BOUNDS[b - 1] < ns) && (b == |BOUNDS| || ns <= BOUNDS[b])
  {
    BucketFromExactly(ns, 0, b);
  }

  method GetLatencyBucket(ns: int) returns (b: nat)
    ensures b == Bucket(ns)
  {
    for i := 0 to |BOUNDS|
      invariant Bucket(ns) == BucketFrom(ns, i)
    {
      if ns <= BOUNDS[i] {
        return i;
      }
    }
    b := |BOUNDS|;
  }

  /** How many of the latencies fall into bucket `b`. */
  function CountIn(measured: seq<int>, b: nat): nat {
    if measured == [] then 0
    else CountIn(measured[..|measured| - 1], b) + if Bucket(measured[|measured| - 1]) == b then 1 else 0
  }

  function CountBelow(measured: seq<int>, n: nat): nat {
    if n == 0 then 0 else CountBelow(measured, n - 1) + CountIn(measured, n - 1)
  }

  /** Every latency is in exactly one bucket: the buckets add up to all of them. */
  lemma {:induction false} BucketsAddUp(measured: seq<int>)
    ensures CountBelow(measured, BUCKETS) == |measured|
  {
    if measured == [] {
      BelowEmpty(BUCKETS);
    } else {
      BucketsAddUp(measured[..|measured| - 1]);
      BelowNext(measured, BUCKETS);
    }
  }

  lemma {:induction false} BelowEmpty(n: nat)
    ensures CountBelow([], n) == 0
  {
    if n > 0 {
      BelowEmpty(n - 1);
    }
  }

  lemma {:induction false} BelowNext(measured: seq<int>, n: nat)
    requires measured != []
    ensures CountBelow(measured, n) ==
            CountBelow(measured[..|measured| - 1], n) + if Bucket(measured[|measured| - 1]) < n then 1 else 0
  {
    if n > 0 {
      BelowNext(measured, n - 1);
    }
  }

  lemma CountInNext(measured: seq<int>, ns: int, b: nat)
    ensures CountIn(measured + [ns], b) == CountIn(measured, b) + if Bucket(ns) == b then 1 else 0
  {
    assert (measured + [ns])[..|measured|] == measured;
  }

  ghost predicate IsHistogram(histogram: map<nat, nat>, measured: seq<int>) {
    forall b: nat :: b < BUCKETS ==> b in histogram && histogram[b] == CountIn(measured, b)
  }

  lemma HistogramNext(histogram: map<nat, nat>, measured: seq<int>, ns: int)
    requires IsHistogram(histogram, measured)
    ensures IsHistogram(histogram[Bucket(ns) := histogram[Bucket(ns)] + 1], measured + [ns])
  {
    forall b: nat | b < BUCKETS
      ensures CountIn(measured + [ns], b) == CountIn(measured, b) + if Bucket(ns) == b then 1 else 0
    {
      CountInNext(measured, ns, b);
    }
  }

  // ---- The recorder.

  datatype WorkerStats = WorkerStats(tps: nat, aborted: nat, durations: seq<int>)

  function EmptyHistogram(n: nat): (h: map<nat, nat>)
    ensures forall b: nat :: b in h <==> b < n
    ensures forall b: nat :: b in h ==> h[b] == 0
  {
    if n == 0 then map[] else EmptyHistogram(n - 1)[n - 1 := 0]
  }

  function FreshWorkers(n: nat): (workers: map<int, WorkerStats>)
    ensures forall w :: w in workers <==> 0 <= w < n
    ensures forall w :: w in workers ==> workers[w] == WorkerStats(0, 0, [])
  {
    if n == 0 then map[] else FreshWorkers(n - 1)[n - 1 := WorkerStats(0, 0, [])]
  }

  /** One more transaction, at `place` once the worker's buffer is full. */
  function Worked(w: WorkerStats, success: bool, ns: int, most: nat, place: nat): WorkerStats
    requires most == 0 || |w.durations| < most || place < |w.durations|
  {
    WorkerStats(
      w.tps + (if success then 1 else 0),
      w.aborted + (if success then 0 else 1),
      if most == 0 || |w.durations| < most then w.durations + [ns] else w.durations[place := ns])
  }

  method Remainder(count: nat, most: nat) returns (place: nat)
    requires most > 0
    ensures place == Slot(count, most)
  {
    place := count % most;
    SlotIsMod(count, most);
  }

  predicate BufferFull(workers: map<int, WorkerStats>, worker: int, most: nat) {
    worker in workers && most > 0 && |workers[worker].durations| == most
  }

  /** The worker's statistics afterwards; an unknown worker has none. */
  ghost predicate WorkerRecorded(before: map<int, WorkerStats>, after: map<int, WorkerStats>,
                                 worker: int, success: bool, ns: int, most: nat, count: nat)
  {
    if worker in before then
      && (most == 0 || |before[worker].durations| <= most)
      && after == before[worker := Worked(before[worker], success, ns, most, if most > 0 then Slot(count, most) else 0)]
    else
      after == before
  }

  /** How many succeeded and how many did not. */
  ghost predicate Counted(tps: nat, aborted: nat, outcomes: seq<bool>) {
    tps == Count(outcomes, true) && aborted == Count(outcomes, false)
  }

  lemma CountedNext(tps: nat, aborted: nat, outcomes: seq<bool>, success: bool)
    requires Counted(tps, aborted, outcomes)
    ensures Counted(tps + One(success), aborted + One(!success), outcomes + [success])
  {
    CountAppend(outcomes, success, true);
    CountAppend(outcomes, success, false);
  }

  /** The buffer holds, at each place, the latest sample that went there, and the counters
      count the outcomes. */
  ghost predicate Keeps(stats: WorkerStats, own: Trace, most: nat) {
    && Holds(stats.durations, own.log, own.spots, most)
    && Counted(stats.tps, stats.aborted, own.outcomes)
  }

  /** Each worker's own statistics keep what it recorded. */
  ghost predicate OwnHold(workers: map<int, WorkerStats>, own: map<int, Trace>, most: nat) {
    forall w :: w in workers ==> w in own && Keeps(workers[w], own[w], most)
  }

  /** A known worker's own trace has grown by what it recorded, and the counter then. */
  ghost predicate Traced(workers: map<int, WorkerStats>, before: map<int, Trace>, after: map<int, Trace>,
                         worker: int, success: bool, ns: int, count: nat)
  {
    if worker in workers then
      && worker in before
      && after == before[worker := Trace(before[worker].log + [ns], before[worker].spots + [count],
                                         before[worker].outcomes + [success])]
    else
      after == before
  }

  class Metrics {
    const most: nat
    var samples: seq<int>
    var sampleCount: nat
    var histogram: map<nat, nat>
    var tps: nat
    var aborted: nat
    var workers: map<int, WorkerStats>
    /** Everything recorded with a limit, and the counter each time. */
    ghost var log: seq<int>
    ghost var spots: seq<nat>
    ghost var outcomes: seq<bool>
    /** The same for each worker's own buffer. */
    ghost var own: map<int, Trace>
    /** Everything recorded in the histogram. */
    ghost var measured: seq<int>

    ghost predicate Valid()
      reads this
    {
      && Holds(samples, log, spots, most) && IsHistogram(histogram, measured) && OwnHold(workers, own, most)
      && Counted(tps, aborted, outcomes)
    }

    /** This worker has recorded everything so far. */
    ghost predicate Solo(worker: int)
      reads this
    {
      worker in workers && worker in own && SoloState(log, spots, own[worker].log, own[worker].spots, sampleCount, most)
    }

    /** With the histogram set up and the workers in place. */
    constructor (most: nat, count: nat)
      ensures Valid() && this.most == most
      ensures log == [] && measured == [] && outcomes == [] && sampleCount == 0 && tps == 0 && aborted == 0
      ensures workers == FreshWorkers(count)
      ensures forall w :: w in workers ==> w in own && own[w] == Trace([], [], [])
      ensures most > 0 ==> forall w :: 0 <= w < count ==> Solo(w)
    {
      this.most := most;
      samples, sampleCount, tps, aborted := [], 0, 0, 0;
      histogram := EmptyHistogram(BUCKETS);
      workers := FreshWorkers(count);
      log, spots, outcomes, measured := [], [], [], [];
      own := map w | w in FreshWorkers(count) :: Trace([], [], []);
    }

    method RecordLatency(ns: int)
      requires Valid()
      modifies this`histogram, this`measured
      ensures Valid()
      ensures measured == old(measured) + [ns]
      ensures histogram == old(histogram)[Bucket(ns) := old(histogram)[Bucket(ns)] + 1]
    {
      var b := GetLatencyBucket(ns);
      HistogramNext(histogram, measured, ns);
      histogram := histogram[b := histogram[b] + 1];
      measured := measured + [ns];
    }

    /** Placed by the counter as it was before. */
    method RecordLatencyWithLimit(ns: int)
      requires Valid()
      modifies this`samples, this`sampleCount, this`log, this`spots
      ensures Valid()
      ensures log == old(log) + [ns] && spots == old(spots) + [old(sampleCount)]
      ensures samples == Write(old(samples), ns, old(sampleCount), most) && sampleCount == old(sampleCount) + 1
    {
      WriteHolds(samples, log, spots, most, ns, sampleCount);
      log, spots := log + [ns], spots + [sampleCount];
      if most == 0 || |samples| < most {
        samples := samples + [ns];
        sampleCount := sampleCount + 1;
      } else {
        var oldest := Remainder(sampleCount, most);
        samples := samples[oldest := ns];
        sampleCount := sampleCount + 1;
      }
    }

    method RecordTransaction(success: bool)
      requires Counted(tps, aborted, outcomes)
      modifies this`tps, this`aborted, this`outcomes
      ensures Counted(tps, aborted, outcomes) && outcomes == old(outcomes) + [success]
    {
      CountedNext(tps, aborted, outcomes, success);
      outcomes := outcomes + [success];
      if success {
        tps := tps + 1;
      } else {
        aborted := aborted + 1;
      }
    }

    method RecordWorkerTransaction(worker: int, success: bool, ns: int)
      requires Valid()
      modifies this
      ensures Valid()
      ensures outcomes == old(outcomes) + [success]
      ensures measured == old(measured) + [ns] && log == old(log) + [ns] && spots == old(spots) + [old(sampleCount)]
      ensures samples == Write(old(samples), ns, old(sampleCount), most)
      ensures sampleCount == old(sampleCount) + 1 + if BufferFull(old(workers), worker, most) then 1 else 0
      ensures WorkerRecorded(old(workers), workers, worker, success, ns, most, sampleCount)
      ensures Traced(old(workers), old(own), own, worker, success, ns, sampleCount)
      ensures old(Solo(worker)) ==> Solo(worker)
    {
      RecordTransaction(success);
      ghost var solo, after := Solo(worker), sampleCount + 1 + if BufferFull(workers, worker, most) then 1 else 0;
      if solo {
        SoloNext(log, spots, own[worker].log, own[worker].spots, sampleCount, most, ns, after);
      }
      RecordLatencyWithLimit(ns);
      RecordLatency(ns);
      RecordWorker(worker, success, ns);
    }

    /** A worker's own buffer, once full, advances the shared counter and writes there. */
    method RecordWorker(worker: int, success: bool, ns: int)
      requires Valid()
      modifies this`workers, this`sampleCount, this`own
      ensures Valid()
      ensures WorkerRecorded(old(workers), workers, worker, success, ns, most, sampleCount)
      ensures Traced(old(workers), old(own), own, worker, success, ns, sampleCount)
      ensures sampleCount == old(sampleCount) + if BufferFull(old(workers), worker, most) then 1 else 0
    {
      if worker in workers {
        var stats := workers[worker];
        ghost var before := stats.durations;
        stats := if success then stats.(tps := stats.tps + 1) else stats.(aborted := stats.aborted + 1);
        if most == 0 || |stats.durations| < most {
          stats := stats.(durations := stats.durations + [ns]);
        } else {
          sampleCount := sampleCount + 1;
          var oldest := Remainder(sampleCount, most);
          stats := stats.(durations := stats.durations[oldest := ns]);
        }
        WriteHolds(before, own[worker].log, own[worker].spots, most, ns, sampleCount);
        CountedNext(workers[worker].tps, workers[worker].aborted, own[worker].outcomes, success);
        own := own[worker := Trace(own[worker].log + [ns], own[worker].spots + [sampleCount],
                                   own[worker].outcomes + [success])];
        workers := workers[worker := stats];
      }
    }
  }
}
