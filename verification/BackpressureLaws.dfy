/** What the controller's formulas come to, in whole numbers and shares. */
module BackpressureLaws {

  import opened Options
  import opened Counts
  import opened Backpressure

  // ---- Truncated factors, without fractions.

  /** `part` is `up / down` of `whole`, cut off. */
  predicate Truncated(part: int, whole: int, up: int, down: int) {
    down * part <= up * whole < down * (part + 1)
  }

  /** A fifth more, a fifth less, four fifths and three tenths. */
  lemma FactorsExactly(limit: int)
    requires limit >= 0
    ensures Truncated(Grown(limit), limit, 6, 5) && Truncated(Shrunk(limit), limit, 4, 5)
    ensures Truncated(HighMark(limit), limit, 4, 5) && Truncated(LowMark(limit), limit, 3, 10)
  {
  }

  /** More than four fifths of the limit are held. */
  predicate Crowded(r: Resource) {
    5 * r.active > 4 * r.limit
  }

  /** Not even three tenths would be held with one more, and the limit is above ten. */
  predicate Roomy(r: Resource) {
    10 * (r.active + 1) <= 3 * r.limit && r.limit > 10
  }

  lemma MarksExactly(r: Resource)
    requires r.limit > 0
    ensures r.active > HighMark(r.limit) <==> Crowded(r)
    ensures r.active < LowMark(r.limit) && r.limit > 10 <==> Roomy(r)
  {
    FactorsExactly(r.limit);
  }

  // ---- When a latency update adjusts, and what.

  predicate Due(c: Config, last: Option<int>, now: int) {
    c.autoScale && (last == None || now - last.value >= c.adjustmentDelay)
  }

  predicate GoesUp(c: Config, last: Option<int>, now: int, pressure: real) {
    Due(c, last, now) && pressure > c.scaleUpThreshold
  }

  predicate GoesDown(c: Config, last: Option<int>, now: int, pressure: real) {
    Due(c, last, now) && pressure <= c.scaleUpThreshold && pressure < c.scaleDownThreshold
  }

  /** Upwards, each crowded limit grows by a fifth; downwards, the connections' shrinks by
      a fifth if it is roomy; nothing else changes a limit. Each adjustment is one event,
      and the wait starts anew. */
  lemma AdjustsExactly(c: Config, before: Scope, after: Scope, last: Option<int>, last': Option<int>,
                       now: int, stamp: int, pressure: real, latency: int)
    requires Sound(before, c) && Decided(c, before, after, last, last', now, stamp, pressure, latency)
    ensures var up, down := GoesUp(c, last, now, pressure), GoesDown(c, last, now, pressure);
            && (if up && Crowded(before.connections)
                then Truncated(after.connections.limit, before.connections.limit, 6, 5)
                else if down && Roomy(before.connections)
                then Truncated(after.connections.limit, before.connections.limit, 4, 5)
                else after.connections.limit == before.connections.limit)
            && (if up && Crowded(before.workers) then Truncated(after.workers.limit, before.workers.limit, 6, 5)
                else after.workers.limit == before.workers.limit)
            && after.connections.(limit := before.connections.limit) == before.connections
            && after.workers.(limit := before.workers.limit) == before.workers
            && |after.history| == |before.history| + (if up || down then 1 else 0) && before.history <= after.history
            && last' == (if up || down then Some(now) else last)
  {
    MarksExactly(before.connections);
    MarksExactly(before.workers);
    FactorsExactly(before.connections.limit);
    FactorsExactly(before.workers.limit);
  }

  /** The event of an adjustment tells its direction and when, and the one limit it names:
      the workers' if they are crowded, otherwise the connections' if that changes. */
  lemma EventExactly(c: Config, before: Scope, after: Scope, last: Option<int>, last': Option<int>,
                     now: int, stamp: int, pressure: real, latency: int)
    requires Sound(before, c) && Decided(c, before, after, last, last', now, stamp, pressure, latency)
    requires |after.history| > |before.history|
    ensures var event, up := after.history[|before.history|], GoesUp(c, last, now, pressure);
            && event.at == stamp && event.pressure == pressure && event.latency == latency
            && (event.kind == ScaleUp <==> up)
            && (event.component == Workers <==> up && Crowded(before.workers))
            && (event.component == Connections <==>
                if up then Crowded(before.connections) && !Crowded(before.workers) else Roomy(before.connections))
            && (event.component == Workers ==>
                event.before == before.workers.limit && event.after == after.workers.limit)
            && (event.component == Connections ==>
                event.before == before.connections.limit && event.after == after.connections.limit)
  {
    MarksExactly(before.connections);
    MarksExactly(before.workers);
  }

  // ---- Pressure.

  /** `share` is `value` over `limit`. */
  ghost predicate IsPart(share: real, value: int, limit: int) {
    share * limit as real == value as real
  }

  lemma PartIsPortion(share: real, value: int, limit: int)
    requires limit > 0 && IsPart(share, value, limit)
    ensures share == Portion(value, limit)
  {
    var p, n := Portion(value, limit), limit as real;
    assert p * n == value as real;
    assert (share - p) * n == 0.0;
  }

  /** Three tenths for the connections in use, two for the workers, three for the queue, and
      two for the latency, up to the most that is allowed. */
  lemma PressureWeighs(connections: Resource, workers: Resource, queue: Resource, latency: int, most: int,
                       c: real, w: real, q: real, l: real)
    requires connections.limit > 0 && workers.limit > 0 && queue.limit > 0 && most > 0
    requires IsPart(c, connections.active, connections.limit) && IsPart(w, workers.active, workers.limit)
    requires IsPart(q, queue.active, queue.limit) && IsPart(l, if latency < most then latency else most, most)
    ensures 10.0 * Pressure(connections, workers, queue, latency, most) == 3.0 * c + 2.0 * w + 3.0 * q + 2.0 * l
  {
    PartIsPortion(c, connections.active, connections.limit);
    PartIsPortion(w, workers.active, workers.limit);
    PartIsPortion(q, queue.active, queue.limit);
    PartIsPortion(l, if latency < most then latency else most, most);
    PortionRange(latency, most);
    PortionRange(most, most);
  }

  // ---- Latency.

  /** Half the sum of the two, cut off towards zero; the first measurement counts in full. */
  lemma AveragedExactly(average: int, measured: int)
    ensures average == 0 ==> Averaged(average, measured) == measured
    ensures average != 0 ==>
              var sum, half := average + measured, Averaged(average, measured);
              if sum >= 0 then sum - 1 <= 2 * half <= sum else sum <= 2 * half <= sum + 1
  {
  }

  // ---- A resource's use over time.

  /** A resource after units have been taken (true) and given back (false). */
  function Used(limit: int, uses: seq<bool>): Resource {
    if uses == [] then Fresh(limit)
    else
      var r := Used(limit, uses[..|uses| - 1]);
      if uses[|uses| - 1] then Entered(r) else Left(r)
  }

  /** Units held after those uses. */
  function Held(uses: seq<bool>): int {
    Count(uses, true) - Count(uses, false)
  }

  /** `most` is the most held at any time. */
  ghost predicate IsPeak(most: int, uses: seq<bool>) {
    && (exists k :: 0 <= k <= |uses| && Held(uses[..k]) == most)
    && (forall k :: 0 <= k <= |uses| ==> Held(uses[..k]) <= most)
  }

  /** The three counts are what they say, and the peak is the most ever held. */
  lemma {:induction false} UseExactly(limit: int, uses: seq<bool>)
    ensures var r := Used(limit, uses);
            && r.limit == limit && r.entered == Count(uses, true) && r.left == Count(uses, false)
            && r.active == Held(uses) && IsPeak(r.peak, uses)
    decreases |uses|
  {
    if uses == [] {
      assert Held(uses[..0]) == 0;
    } else {
      var front := uses[..|uses| - 1];
      UseExactly(limit, front);
      PeakNext(Used(limit, front).peak, uses);
    }
  }

  lemma PeakNext(most: int, uses: seq<bool>)
    requires uses != [] && IsPeak(most, uses[..|uses| - 1])
    ensures IsPeak(if Held(uses) > most then Held(uses) else most, uses)
  {
    var front := uses[..|uses| - 1];
    assert uses[..|uses|] == uses;
    forall k | 0 <= k <= |front|
      ensures uses[..k] == front[..k]
    {
    }
    var k :| 0 <= k <= |front| && Held(front[..k]) == most;
    assert Held(uses[..k]) == most;
    forall j | 0 <= j <= |uses|
      ensures Held(uses[..j]) <= if Held(uses) > most then Held(uses) else most
    {
      if j <= |front| {
        assert Held(front[..j]) <= most;
      }
    }
  }

  // ---- Defaults.

  predicate FilledReal(after: real, before: real, fallback: real) {
    if before > 0.0 then after == before else after == fallback
  }

  /** Every field left blank takes its own default, and every other stays as given. */
  lemma DefaultsExactly(c: Config, cpus: int)
    ensures var d := WithDefaults(c, cpus);
            && Filled(d.maxConnections, c.maxConnections, 100) && Filled(d.maxWorkers, c.maxWorkers, 2 * cpus)
            && Filled(d.maxQueueSize, c.maxQueueSize, 1000) && Filled(d.maxLatency, c.maxLatency, 1_000_000_000)
            && FilledReal(d.pressureThreshold, c.pressureThreshold, 0.8) && d.autoScale == c.autoScale
            && FilledReal(d.scaleUpThreshold, c.scaleUpThreshold, 0.7)
            && FilledReal(d.scaleDownThreshold, c.scaleDownThreshold, 0.3)
            && Filled(d.adjustmentDelay, c.adjustmentDelay, 5_000_000_000)
  {
  }
}
