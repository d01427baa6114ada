/** The adaptive backpressure controller: three limited resources, the pressure they
    add up to, and limits that grow and shrink. Products with fractional factors are
    exact reals, truncated to whole limits. */
module Backpressure {

  import opened Options

  // ---- One limited resource.

  /** What is held now, the limit, all ever taken and given back, and the most held at once. */
  datatype Resource = Resource(active: int, limit: int, entered: nat, left: nat, peak: int)

  function Fresh(limit: int): Resource {
    Resource(0, limit, 0, 0, 0)
  }

  function Entered(r: Resource): Resource {
    var active := r.active + 1;
    r.(active := active, entered := r.entered + 1, peak := if active > r.peak then active else r.peak)
  }

  function Left(r: Resource): Resource {
    r.(active := r.active - 1, left := r.left + 1)
  }

  /** Holds in every run, whatever callers do. */
  predicate Bounded(r: Resource) {
    && r.active <= r.limit
    && r.limit > 0
    && r.active == r.entered - r.left
    && r.active <= r.peak
  }

  // ---- Truncating factors.

  /** Rounds towards zero, for the non-negative values used here. */
  function Scaled(limit: int, factor: real): int {
    (limit as real * factor).Floor
  }

  function Grown(limit: int): int { Scaled(limit, 1.2) }
  function Shrunk(limit: int): int { Scaled(limit, 0.8) }
  function HighMark(limit: int): int { Scaled(limit, 0.8) }
  function LowMark(limit: int): int { Scaled(limit, 0.3) }

  /** Growing never lowers a limit, and truncation makes it stand still exactly below five. */
  lemma GrowsExactly(limit: int)
    requires limit > 0
    ensures Grown(limit) >= limit
    ensures Grown(limit) == limit <==> limit < 5
  {
  }

  /** A shrunk limit still covers what is held, and never falls below eight. */
  lemma ShrinkCovers(limit: int, active: int)
    requires active < LowMark(limit) && limit > 10
    ensures active < Shrunk(limit) < limit
    ensures Shrunk(limit) >= 8
  {
  }

  /** A limit just grown is not one to shrink, nor one just shrunk one to grow, until
      the number held changes. */
  lemma NoThrash(limit: int, active: int)
    requires limit > 0
    ensures active > HighMark(limit) ==> active >= LowMark(Grown(limit))
    ensures active < LowMark(limit) ==> active <= HighMark(Shrunk(limit))
  {
  }

  // ---- Pressure.

  function Portion(value: int, limit: int): real
    requires limit > 0
  {
    value as real / limit as real
  }

  function LatencyPortion(latency: int, most: int): real
    requires most > 0
  {
    var portion := Portion(latency, most);
    if portion > 1.0 then 1.0 else portion
  }

  function Pressure(connections: Resource, workers: Resource, queue: Resource, latency: int, most: int): real
    requires connections.limit > 0 && workers.limit > 0 && queue.limit > 0 && most > 0
  {
    Portion(connections.active, connections.limit) * 0.3
    + Portion(workers.active, workers.limit) * 0.2
    + Portion(queue.active, queue.limit) * 0.3
    + LatencyPortion(latency, most) * 0.2
  }

  /** `p` is the pressure of these resources. */
  ghost predicate IsPressure(p: real, connections: Resource, workers: Resource, queue: Resource, latency: int, most: int) {
    && connections.limit > 0 && workers.limit > 0 && queue.limit > 0 && most > 0
    && p == Pressure(connections, workers, queue, latency, most)
  }

  lemma PortionRange(value: int, limit: int)
    requires limit > 0
    ensures Portion(value, limit) <= 1.0 <==> value <= limit
    ensures Portion(value, limit) >= 0.0 <==> value >= 0
    ensures Portion(value, limit) == 1.0 <==> value == limit
    ensures Portion(value, limit) == 0.0 <==> value == 0
  {
    var p, n := Portion(value, limit), limit as real;
    assert p * n == value as real;
    if p > 1.0 {
      assert (p - 1.0) * n > 0.0;
    } else if p == 1.0 {
    } else {
      assert (1.0 - p) * n > 0.0;
    }
    if p < 0.0 {
      assert -p * n > 0.0;
    } else if p > 0.0 {
      assert p * n > 0.0;
    }
  }

  predicate Matched3(connections: Resource, workers: Resource, queue: Resource, latency: int) {
    connections.active >= 0 && workers.active >= 0 && queue.active >= 0 && latency >= 0
  }

  /** Pressure never exceeds one, and is one exactly when all is used up. With every
      release matched it is never negative, and zero exactly when all is idle. */
  lemma PressureRange(connections: Resource, workers: Resource, queue: Resource, latency: int, most: int)
    requires Bounded(connections) && Bounded(workers) && Bounded(queue) && most > 0
    ensures var p := Pressure(connections, workers, queue, latency, most);
            && p <= 1.0
            && (p == 1.0 <==>
                connections.active == connections.limit && workers.active == workers.limit
                && queue.active == queue.limit && latency >= most)
            && (Matched3(connections, workers, queue, latency) ==>
                p >= 0.0
                && (p == 0.0 <==> connections.active == workers.active == queue.active == latency == 0))
  {
    PortionRange(connections.active, connections.limit);
    PortionRange(workers.active, workers.limit);
    PortionRange(queue.active, queue.limit);
    PortionRange(latency, most);
  }

  // ---- The scaling history.

  datatype Kind = ScaleUp | ScaleDown
  datatype Component = Connections | Workers | Neither
  datatype Event = Event(at: int, kind: Kind, component: Component, before: int, after: int, pressure: real, latency: int)

  /** The limit of a component, as its events tell it. */
  function Replay(history: seq<Event>, component: Component, initial: int): int {
    if history == [] then
      initial
    else
      var last := history[|history| - 1];
      if last.component == component then last.after else Replay(history[..|history| - 1], component, initial)
  }

  lemma ReplayNext(history: seq<Event>, event: Event, component: Component, initial: int)
    ensures Replay(history + [event], component, initial) ==
            if event.component == component then event.after else Replay(history, component, initial)
  {
    assert (history + [event])[..|history|] == history;
  }

  ghost predicate Spaced(times: seq<int>, delay: int) {
    forall i, j :: 0 <= i < j < |times| && j == i + 1 ==> times[j] - times[i] >= delay
  }

  /** Any two adjustments, not only neighbours, are at least the delay apart, times how
      many adjustments apart they are. */
  lemma {:induction false} SpacedFarApart(times: seq<int>, delay: int, i: nat, j: nat)
    requires Spaced(times, delay) && i <= j < |times|
    ensures times[j] - times[i] >= (j - i) * delay
  {
    if i < j {
      SpacedFarApart(times, delay, i, j - 1);
      assert times[j] - times[j - 1] >= delay;
      assert (j - i) * delay == (j - 1 - i) * delay + delay;
    }
  }

  datatype Config = Config(
    maxConnections: int, maxWorkers: int, maxQueueSize: int, maxLatency: int,
    pressureThreshold: real, autoScale: bool, scaleUpThreshold: real, scaleDownThreshold: real,
    adjustmentDelay: int)

  function OrDefault(value: int, fallback: int): int {
    if value <= 0 then fallback else value
  }

  function OrDefaultReal(value: real, fallback: real): real {
    if value <= 0.0 then fallback else value
  }

  /** Durations are in nanoseconds. */
  function WithDefaults(c: Config, cpus: int): Config {
    Config(
      OrDefault(c.maxConnections, 100), OrDefault(c.maxWorkers, cpus * 2), OrDefault(c.maxQueueSize, 1000),
      OrDefault(c.maxLatency, 1_000_000_000),
      OrDefaultReal(c.pressureThreshold, 0.8), c.autoScale,
      OrDefaultReal(c.scaleUpThreshold, 0.7), OrDefaultReal(c.scaleDownThreshold, 0.3),
      OrDefault(c.adjustmentDelay, 5_000_000_000))
  }

  /** What a latency update decides, if anything. */
  function Decision(c: Config, last: Option<int>, now: int, pressure: real): Option<Kind> {
    if !c.autoScale || (last != None && now - last.value < c.adjustmentDelay) then
      None
    else if pressure > c.scaleUpThreshold then
      Some(ScaleUp)
    else if pressure < c.scaleDownThreshold then
      Some(ScaleDown)
    else
      None
  }

  function UpLimit(r: Resource): int {
    if r.active > HighMark(r.limit) then Grown(r.limit) else r.limit
  }

  function DownLimit(r: Resource): int {
    if r.active < LowMark(r.limit) && r.limit > 10 then Shrunk(r.limit) else r.limit
  }

  function ConnectionLimit(r: Resource, decision: Option<Kind>): int {
    match decision
    case None => r.limit
    case Some(ScaleUp) => UpLimit(r)
    case Some(ScaleDown) => DownLimit(r)
  }

  function WorkerLimit(r: Resource, decision: Option<Kind>): int {
    if decision == Some(ScaleUp) then UpLimit(r) else r.limit
  }

  /** The one event for a growth. The workers come last, so they hide the connections. */
  function UpEvent(connections: Resource, workers: Resource, at: int, pressure: real, latency: int): Event {
    var event := Event(at, ScaleUp, Neither, 0, 0, pressure, latency);
    if workers.active > HighMark(workers.limit) then
      event.(component := Workers, before := workers.limit, after := UpLimit(workers))
    else if connections.active > HighMark(connections.limit) then
      event.(component := Connections, before := connections.limit, after := UpLimit(connections))
    else
      event
  }

  function DownEvent(connections: Resource, at: int, pressure: real, latency: int): Event {
    var event := Event(at, ScaleDown, Neither, 0, 0, pressure, latency);
    if connections.active < LowMark(connections.limit) && connections.limit > 10 then
      event.(component := Connections, before := connections.limit, after := DownLimit(connections))
    else
      event
  }

  /** The events a decision adds to the history. */
  function Events(connections: Resource, workers: Resource, decision: Option<Kind>, at: int, pressure: real, latency: int)
    : seq<Event>
  {
    match decision
    case None => []
    case Some(ScaleUp) => [UpEvent(connections, workers, at, pressure, latency)]
    case Some(ScaleDown) => [DownEvent(connections, at, pressure, latency)]
  }

  /** Whether the history hides a growth of the connection limit after a decision: one
      joins a worker event, and the next event that names the connections shows it. */
  function HiddenAfter(connections: Resource, workers: Resource, decision: Option<Kind>, hidden: bool): bool {
    var grows := connections.active > HighMark(connections.limit);
    match decision
    case None => hidden
    case Some(ScaleUp) =>
      if workers.active > HighMark(workers.limit) then hidden || (grows && connections.limit >= 5) else hidden && !grows
    case Some(ScaleDown) => hidden && !(connections.active < LowMark(connections.limit) && connections.limit > 10)
  }

  /** The history tells the worker limit, and tells the connection limit exactly when no
      growth is hidden. */
  ghost predicate Tells(history: seq<Event>, c: Config, connections: int, workers: int, hidden: bool) {
    && Replay(history, Workers, c.maxWorkers) == workers
    && Replay(history, Connections, c.maxConnections) <= connections
    && (Replay(history, Connections, c.maxConnections) == connections <==> !hidden)
  }

  /** What scaling may change: both limits, the history, and what it hides. */
  datatype Scope = Scope(connections: Resource, workers: Resource, history: seq<Event>, hidden: bool)

  /** The limits stay usable, and the history tells them. */
  ghost predicate Sound(s: Scope, c: Config) {
    && Bounded(s.connections) && Bounded(s.workers)
    && s.workers.limit >= c.maxWorkers
    && (s.connections.limit >= c.maxConnections || s.connections.limit >= 8)
    && Tells(s.history, c, s.connections.limit, s.workers.limit, s.hidden)
  }

  /** The whole effect of a decision. */
  ghost predicate Adjusted(before: Scope, after: Scope, decision: Option<Kind>, at: int, pressure: real, latency: int) {
    && after.connections == before.connections.(limit := ConnectionLimit(before.connections, decision))
    && after.workers == before.workers.(limit := WorkerLimit(before.workers, decision))
    && after.history == before.history + Events(before.connections, before.workers, decision, at, pressure, latency)
    && after.hidden == HiddenAfter(before.connections, before.workers, decision, before.hidden)
  }

  lemma UpAdjusts(before: Scope, after: Scope, at: int, pressure: real, latency: int)
    requires after.connections == before.connections.(limit := UpLimit(before.connections))
    requires after.workers == before.workers.(limit := UpLimit(before.workers))
    requires after.history == before.history + [UpEvent(before.connections, before.workers, at, pressure, latency)]
    requires after.hidden == HiddenAfter(before.connections, before.workers, Some(ScaleUp), before.hidden)
    ensures Adjusted(before, after, Some(ScaleUp), at, pressure, latency)
  {
  }

  /** What a latency update decides, and does. */
  ghost predicate Decided(c: Config, before: Scope, after: Scope, last: Option<int>, last': Option<int>,
                          now: int, stamp: int, pressure: real, latency: int)
  {
    var decision := Decision(c, last, now, pressure);
    && Adjusted(before, after, decision, stamp, pressure, latency)
    && last' == (if decision == None then last else Some(now))
  }

  lemma NothingDecided(c: Config, scope: Scope, last: Option<int>, now: int, stamp: int, pressure: real, latency: int)
    requires Decision(c, last, now, pressure) == None
    ensures Decided(c, scope, scope, last, last, now, stamp, pressure, latency)
  {
  }

  lemma OneEvent(before: Scope, after: Scope, decision: Option<Kind>, at: int, pressure: real, latency: int)
    requires decision != None && Adjusted(before, after, decision, at, pressure, latency)
    ensures |after.history| == |before.history| + 1
  {
  }

  lemma UpSound(before: Scope, after: Scope, c: Config, at: int, pressure: real, latency: int)
    requires Sound(before, c) && Adjusted(before, after, Some(ScaleUp), at, pressure, latency)
    ensures Sound(after, c)
  {
    var event := UpEvent(before.connections, before.workers, at, pressure, latency);
    GrowsExactly(before.connections.limit);
    GrowsExactly(before.workers.limit);
    ReplayNext(before.history, event, Workers, c.maxWorkers);
    ReplayNext(before.history, event, Connections, c.maxConnections);
  }

  lemma DownSound(before: Scope, after: Scope, c: Config, at: int, pressure: real, latency: int)
    requires Sound(before, c) && Adjusted(before, after, Some(ScaleDown), at, pressure, latency)
    ensures Sound(after, c)
  {
    var event := DownEvent(before.connections, at, pressure, latency);
    if before.connections.active < LowMark(before.connections.limit) && before.connections.limit > 10 {
      ShrinkCovers(before.connections.limit, before.connections.active);
    }
    ReplayNext(before.history, event, Workers, c.maxWorkers);
    ReplayNext(before.history, event, Connections, c.maxConnections);
  }

  // ---- Pacing.

  /** `n` decisions, the last one at `last`, no two closer than the delay. */
  ghost predicate Paced(decided: seq<int>, n: nat, last: Option<int>, delay: int) {
    && |decided| == n && Spaced(decided, delay)
    && last == (if decided == [] then None else Some(decided[|decided| - 1]))
  }

  lemma PacedNext(decided: seq<int>, n: nat, last: Option<int>, delay: int, now: int, decided': seq<int>)
    requires Paced(decided, n, last, delay) && decided' == decided + [now]
    requires last == None || now - last.value >= delay
    ensures Paced(decided', n + 1, Some(now), delay)
  {
  }

  // ---- Latency metrics.

  /** Half of a sum, towards zero. */
  function Half(n: int): int {
    if n >= 0 then n / 2 else -(-n / 2)
  }

  /** The "moving average": half of the old one and the new value. */
  function Averaged(average: int, measured: int): int {
    if average == 0 then measured else Half(average + measured)
  }

  /** It never leaves the span between the two. */
  lemma AveragedBetween(average: int, measured: int)
    requires average != 0
    ensures average <= Averaged(average, measured) <= measured || measured <= Averaged(average, measured) <= average
  {
  }

  function Larger(a: int, b: int): int {
    if a > b then a else b
  }

  /** `m` is the largest value measured, or zero if none is above. */
  ghost predicate IsLargest(m: int, measurements: seq<int>) {
    && m >= 0 && (m == 0 || m in measurements)
    && forall i :: 0 <= i < |measurements| ==> measurements[i] <= m
  }

  lemma LargestNext(m: int, measurements: seq<int>, measured: int)
    requires IsLargest(m, measurements)
    ensures IsLargest(Larger(measured, m), measurements + [measured])
  {
    assert measured in measurements + [measured];
    assert m in measurements ==> m in measurements + [measured];
  }

  /** The limits, and a history that tells how they came about. */
  ghost predicate Usable(c: Config, s: Scope, queue: Resource, decided: seq<int>, last: Option<int>) {
    && Sound(s, c) && Bounded(queue) && queue.limit == c.maxQueueSize
    && Paced(decided, |s.history|, last, c.adjustmentDelay)
    && (!c.autoScale ==> s.history == [])
  }

  class Controller {
    const config: Config
    var connections: Resource
    var workers: Resource
    var queue: Resource
    var latency: int
    var averageLatency: int
    var p95Latency: int
    var p99Latency: int
    var pressure: real
    var peakPressure: real
    var pressureEvents: nat
    var dropped: nat
    var lastAdjustment: Option<int>
    var history: seq<Event>
    /** When each event in the history was decided. */
    ghost var decided: seq<int>
    ghost var measurements: seq<int>
    /** The connection limit has grown in an event that names only the workers, and no
        later event names the connections. */
    ghost var hidden: bool

    ghost function Scaling(): Scope
      reads this
    {
      Scope(connections, workers, history, hidden)
    }

    predicate Positive() {
      config.maxConnections > 0 && config.maxWorkers > 0 && config.maxQueueSize > 0
      && config.maxLatency > 0 && config.adjustmentDelay > 0
    }

    /** What no caller can break. */
    ghost predicate Valid()
      reads this
    {
      && Positive() && Usable(config, Scaling(), queue, decided, lastAdjustment)
      && pressure <= 1.0 && pressure <= peakPressure <= 1.0
      && Percentiles()
    }

    /** Both "percentiles" are the largest latency ever measured. */
    ghost predicate Percentiles()
      reads this
    {
      p95Latency == p99Latency && IsLargest(p99Latency, measurements)
    }

    /** Every release so far followed its acquisition. */
    ghost predicate Matched()
      reads this
    {
      Matched3(connections, workers, queue, latency) && 0.0 <= pressure
    }

    constructor (c: Config, cpus: int)
      requires cpus > 0
      ensures config == WithDefaults(c, cpus)
      ensures Valid() && Matched()
      ensures connections == Fresh(config.maxConnections) && workers == Fresh(config.maxWorkers)
      ensures queue == Fresh(config.maxQueueSize)
      ensures history == [] && pressure == 0.0 && dropped == 0 && !hidden && lastAdjustment == None
      ensures latency == averageLatency == p99Latency == 0
    {
      config := WithDefaults(c, cpus);
      connections := Fresh(WithDefaults(c, cpus).maxConnections);
      workers := Fresh(WithDefaults(c, cpus).maxWorkers);
      queue := Fresh(WithDefaults(c, cpus).maxQueueSize);
      latency, pressure, peakPressure := 0, 0.0, 0.0;
      pressureEvents, dropped := 0, 0;
      lastAdjustment, history := None, [];
      averageLatency, p95Latency, p99Latency := 0, 0, 0;
      decided, measurements, hidden := [], [], false;
    }

    method UpdatePressure()
      requires Positive() && Bounded(connections) && Bounded(workers) && Bounded(queue)
      requires peakPressure <= 1.0
      modifies this`pressure, this`peakPressure, this`pressureEvents
      ensures IsPressure(pressure, connections, workers, queue, latency, config.maxLatency)
      ensures pressure <= peakPressure <= 1.0
      ensures peakPressure == if pressure > old(peakPressure) then pressure else old(peakPressure)
      ensures pressureEvents == old(pressureEvents) + if pressure > config.pressureThreshold then 1 else 0
      ensures Matched3(connections, workers, queue, latency) ==> pressure >= 0.0
    {
      PressureRange(connections, workers, queue, latency, config.maxLatency);
      pressure := Pressure(connections, workers, queue, latency, config.maxLatency);
      if pressure > peakPressure {
        peakPressure := pressure;
      }
      if pressure > config.pressureThreshold {
        pressureEvents := pressureEvents + 1;
      }
    }

    method AcquireConnection() returns (ok: bool)
      requires Valid()
      modifies this`connections, this`dropped, this`pressure, this`peakPressure, this`pressureEvents
      ensures Valid() && (old(Matched()) ==> Matched())
      ensures ok <==> old(pressure) <= config.pressureThreshold && old(connections.active) < old(connections.limit)
      ensures connections == if ok then Entered(old(connections)) else old(connections)
      ensures dropped == old(dropped) + if ok then 0 else 1
      ensures if ok then IsPressure(pressure, connections, workers, queue, latency, config.maxLatency)
              else pressure == old(pressure)
    {
      if pressure > config.pressureThreshold {
        dropped := dropped + 1;
        return false;
      }
      if connections.active >= connections.limit {
        dropped := dropped + 1;
        return false;
      }
      connections := Entered(connections);
      UpdatePressure();
      ok := true;
    }

    /** With no connection held, the balance and the limits still hold afterwards, but
        the count is negative: `Matched` is kept exactly if one was held. */
    method ReleaseConnection()
      requires Valid()
      modifies this`connections, this`pressure, this`peakPressure, this`pressureEvents
      ensures Valid()
      ensures old(Matched()) ==> (Matched() <==> old(connections.active) > 0)
      ensures connections == Left(old(connections))
      ensures IsPressure(pressure, connections, workers, queue, latency, config.maxLatency)
    {
      connections := Left(connections);
      UpdatePressure();
    }

    method AcquireWorker() returns (ok: bool)
      requires Valid()
      modifies this`workers, this`pressure, this`peakPressure, this`pressureEvents
      ensures Valid() && (old(Matched()) ==> Matched())
      ensures ok <==> old(workers.active) < old(workers.limit)
      ensures workers == if ok then Entered(old(workers)) else old(workers)
      ensures if ok then IsPressure(pressure, connections, workers, queue, latency, config.maxLatency)
              else pressure == old(pressure)
    {
      if workers.active >= workers.limit {
        return false;
      }
      workers := Entered(workers);
      UpdatePressure();
      ok := true;
    }

    method ReleaseWorker()
      requires Valid()
      modifies this`workers, this`pressure, this`peakPressure, this`pressureEvents
      ensures Valid()
      ensures old(Matched()) ==> (Matched() <==> old(workers.active) > 0)
      ensures workers == Left(old(workers))
      ensures IsPressure(pressure, connections, workers, queue, latency, config.maxLatency)
    {
      workers := Left(workers);
      UpdatePressure();
    }

    method EnqueueRequest() returns (ok: bool)
      requires Valid()
      modifies this`queue, this`dropped, this`pressure, this`peakPressure, this`pressureEvents
      ensures Valid() && (old(Matched()) ==> Matched())
      ensures ok <==> old(queue.active) < config.maxQueueSize
      ensures queue == if ok then Entered(old(queue)) else old(queue)
      ensures dropped == old(dropped) + if ok then 0 else 1
      ensures if ok then IsPressure(pressure, connections, workers, queue, latency, config.maxLatency)
              else pressure == old(pressure)
    {
      if queue.active >= queue.limit {
        dropped := dropped + 1;
        return false;
      }
      queue := Entered(queue);
      UpdatePressure();
      ok := true;
    }

    method DequeueRequest()
      requires Valid()
      modifies this`queue, this`pressure, this`peakPressure, this`pressureEvents
      ensures Valid()
      ensures old(Matched()) ==> (Matched() <==> old(queue.active) > 0)
      ensures queue == Left(old(queue))
      ensures IsPressure(pressure, connections, workers, queue, latency, config.maxLatency)
    {
      queue := Left(queue);
      UpdatePressure();
    }

    method Measure(measured: int)
      requires Percentiles()
      modifies this`latency, this`averageLatency, this`p95Latency, this`p99Latency, this`measurements
      ensures Percentiles()
      ensures latency == measured && averageLatency == Averaged(old(averageLatency), measured)
      ensures p95Latency == p99Latency == Larger(measured, old(p99Latency)) && measurements == old(measurements) + [measured]
    {
      latency := measured;
      if averageLatency == 0 {
        averageLatency := measured;
      } else {
        averageLatency := Half(averageLatency + measured);
      }
      if measured > p95Latency {
        p95Latency := measured;
      }
      if measured > p99Latency {
        p99Latency := measured;
      }
      LargestNext(old(p99Latency), measurements, measured);
      measurements := measurements + [measured];
    }

    /** `now` is read for the decision, `stamp` for the event. */
    method UpdateLatency(measured: int, now: int, stamp: int)
      requires Valid()
      modifies this`latency, this`averageLatency, this`p95Latency, this`p99Latency, this`measurements,
               this`pressure, this`peakPressure, this`pressureEvents,
               this`connections, this`workers, this`lastAdjustment, this`history, this`decided, this`hidden
      ensures Valid()
      ensures old(Matched()) && measured >= 0 ==> Matched()
      ensures latency == measured
      ensures IsPressure(pressure, old(connections), old(workers), queue, measured, config.maxLatency)
      ensures queue == old(queue) && dropped == old(dropped)
      ensures averageLatency == Averaged(old(averageLatency), measured)
      ensures p95Latency == p99Latency == Larger(measured, old(p99Latency)) && measurements == old(measurements) + [measured]
      ensures Decided(config, old(Scaling()), Scaling(), old(lastAdjustment), lastAdjustment, now, stamp, pressure, latency)
    {
      Measure(measured);
      UpdatePressure();
      ConsiderScaling(now, stamp);
    }

    method ConsiderScaling(now: int, stamp: int)
      requires Usable(config, Scaling(), queue, decided, lastAdjustment)
      modifies this`connections, this`workers, this`lastAdjustment, this`history, this`decided, this`hidden
      ensures Usable(config, Scaling(), queue, decided, lastAdjustment)
      ensures connections.active == old(connections.active) && workers.active == old(workers.active)
      ensures Decided(config, old(Scaling()), Scaling(), old(lastAdjustment), lastAdjustment, now, stamp, pressure, latency)
    {
      ghost var scope, last := Scaling(), lastAdjustment;
      ghost var decision, paced := Decision(config, last, now, pressure), decided + [now];
      if decision == None {
        NothingDecided(config, scope, last, now, stamp, pressure, latency);
      }
      if !config.autoScale {
        return;
      }
      if lastAdjustment != None && now - lastAdjustment.value < config.adjustmentDelay {
        return;
      }
      PacedNext(decided, |history|, lastAdjustment, config.adjustmentDelay, now, paced);
      if pressure > config.scaleUpThreshold {
        ScaleUpLimits(stamp);
        OneEvent(scope, Scaling(), Some(ScaleUp), stamp, pressure, latency);
        lastAdjustment, decided := Some(now), paced;
      } else if pressure < config.scaleDownThreshold {
        ScaleDownLimits(stamp);
        OneEvent(scope, Scaling(), Some(ScaleDown), stamp, pressure, latency);
        lastAdjustment, decided := Some(now), paced;
      }
    }

    /** When both limits grow, the event names the workers only. */
    method ScaleUpLimits(stamp: int)
      requires Sound(Scaling(), config)
      modifies this`connections, this`workers, this`history, this`hidden
      ensures Sound(Scaling(), config)
      ensures Adjusted(old(Scaling()), Scaling(), Some(ScaleUp), stamp, pressure, latency)
    {
      ghost var scope := Scaling();
      var event := Event(stamp, ScaleUp, Neither, 0, 0, pressure, latency);
      GrowsExactly(connections.limit);
      if connections.active > HighMark(connections.limit) {
        var before := connections.limit;
        connections := connections.(limit := Grown(before));
        event := event.(component := Connections, before := before, after := connections.limit);
      }
      if workers.active > HighMark(workers.limit) {
        var before := workers.limit;
        workers := workers.(limit := Grown(before));
        hidden := hidden || (event.component == Connections && event.before != event.after);
        event := event.(component := Workers, before := before, after := workers.limit);
      } else if event.component == Connections {
        hidden := false;
      }
      history := history + [event];
      UpAdjusts(scope, Scaling(), stamp, pressure, latency);
      UpSound(scope, Scaling(), config, stamp, pressure, latency);
    }

    method ScaleDownLimits(stamp: int)
      requires Sound(Scaling(), config)
      modifies this`connections, this`history, this`hidden
      ensures Sound(Scaling(), config)
      ensures Adjusted(old(Scaling()), Scaling(), Some(ScaleDown), stamp, pressure, latency)
    {
      ghost var scope := Scaling();
      var event := Event(stamp, ScaleDown, Neither, 0, 0, pressure, latency);
      if connections.active < LowMark(connections.limit) && connections.limit > 10 {
        var before := connections.limit;
        connections := connections.(limit := Shrunk(before));
        event := event.(component := Connections, before := before, after := connections.limit);
        hidden := false;
      }
      history := history + [event];
      DownSound(scope, Scaling(), config, stamp, pressure, latency);
    }
  }

  /** Five connections, one worker, one queued request; no acquisition is ever refused
      for pressure. */
  function Small(): Config {
    Config(5, 1, 1, 1, 1.0, true, 0.7, 0.3, 1)
  }

  /** A small controller nobody has scaled yet. */
  ghost predicate Unscaled(c: Controller)
    reads c
  {
    && c.Valid() && c.config == Small() && !c.hidden && c.history == [] && c.lastAdjustment == None
    && c.connections.limit == 5 && c.workers.limit == 1 && c.queue.limit == 1
  }

  method TakeConnection(c: Controller)
    requires Unscaled(c) && c.connections.active < 5
    modifies c
    ensures Unscaled(c) && c.connections.active == old(c.connections.active) + 1
    ensures c.workers == old(c.workers) && c.queue == old(c.queue)
  {
    var ok := c.AcquireConnection();
  }

  method TakeRest(c: Controller)
    requires Unscaled(c) && c.workers.active == c.queue.active == 0
    modifies c
    ensures Unscaled(c) && c.workers.active == c.queue.active == 1
    ensures c.connections == old(c.connections)
  {
    var worker := c.AcquireWorker();
    var request := c.EnqueueRequest();
  }

  method NewSmall() returns (c: Controller)
    ensures fresh(c) && Unscaled(c)
    ensures c.connections.active == c.workers.active == c.queue.active == 0
  {
    c := new Controller(Small(), 1);
  }

  method UseUp() returns (c: Controller)
    ensures fresh(c) && Unscaled(c)
    ensures c.connections.active == 5 && c.workers.active == c.queue.active == 1
  {
    c := NewSmall();
    for i := 0 to 5
      invariant fresh(c) && Unscaled(c)
      invariant c.connections.active == i && c.workers.active == c.queue.active == 0
    {
      TakeConnection(c);
    }
    TakeRest(c);
  }

  lemma FullPressure(p: real, connections: Resource, workers: Resource, queue: Resource, latency: int, most: int)
    requires Bounded(connections) && Bounded(workers) && Bounded(queue)
    requires IsPressure(p, connections, workers, queue, latency, most)
    requires connections.active == connections.limit && workers.active == workers.limit
    requires queue.active == queue.limit && latency >= most
    ensures p == 1.0
  {
    PressureRange(connections, workers, queue, latency, most);
  }

  lemma SmallGrowth(before: Scope, after: Scope, at: int, pressure: real, latency: int)
    requires Adjusted(before, after, Some(ScaleUp), at, pressure, latency) && before.history == []
    requires before.connections.active == before.connections.limit == 5
    requires before.workers.active == before.workers.limit == 1
    ensures after.hidden && after.connections.limit == 6 && Replay(after.history, Connections, 5) == 5
  {
    assert after.history == [UpEvent(before.connections, before.workers, at, pressure, latency)];
    ReplayNext([], after.history[0], Connections, 5);
  }

  /** A growth can be hidden: with everything in use the connections go from five to six
      beside the one worker, and the history still tells five. */
  method HideAGrowth(now: int) returns (c: Controller)
    ensures c.Valid() && c.hidden
    ensures c.connections.limit == 6 && Replay(c.history, Connections, c.config.maxConnections) == 5
  {
    c := UseUp();
    ghost var before := c.Scaling();
    c.UpdateLatency(1, now, now);
    FullPressure(c.pressure, before.connections, before.workers, c.queue, 1, 1);
    SmallGrowth(before, c.Scaling(), now, c.pressure, c.latency);
  }
}
