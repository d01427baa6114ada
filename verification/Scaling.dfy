/** The sequences of (workers, connections) bands a progressive run steps through. */
module Scaling {

  import opened Options
  import opened Bits

  datatype Band = Band(workers: int, connections: int)

  datatype Range = Range(min: int, max: int, step: int)

  /** `testDuration` and the others are left blank to take their defaults. */
  datatype Durations = Durations(test: string, warmup: string, cooldown: string, band: string)

  datatype Config = Config(workers: Range, connections: Range, bands: int, strategy: string, durations: Durations)

  // ---- Validation.

  datatype Error = MinWorkers | MaxWorkers | WorkerRange | MinConns | MaxConns | ConnRange
                 | TooFewBands | TooManyBands | StepWorkers | StepConns | BandDuration | Strategy

  const STRATEGIES: set<string> := {"linear", "balanced", "synchronized", "exponential", "fibonacci", ""}

  predicate Positive(r: Range) {
    0 < r.min <= r.max
  }

  predicate NewFormat(c: Config) {
    c.bands > 0 || c.durations.test != ""
  }

  predicate Acceptable(c: Config) {
    && Positive(c.workers) && Positive(c.connections) && c.strategy in STRATEGIES
    && (if NewFormat(c) then c.bands > 0 ==> 3 <= c.bands <= 25
        else c.workers.step > 0 && c.connections.step > 0 && c.durations.band != "")
  }

  /** The checks, in the order in which they are made. */
  const CHECKS: seq<Error> :=
    [MinWorkers, MaxWorkers, WorkerRange, MinConns, MaxConns, ConnRange,
     TooFewBands, TooManyBands, StepWorkers, StepConns, BandDuration, Strategy]

  predicate Fails(c: Config, e: Error) {
    match e
    case MinWorkers => c.workers.min <= 0
    case MaxWorkers => c.workers.max <= 0
    case WorkerRange => c.workers.min > c.workers.max
    case MinConns => c.connections.min <= 0
    case MaxConns => c.connections.max <= 0
    case ConnRange => c.connections.min > c.connections.max
    case TooFewBands => 0 < c.bands < 3
    case TooManyBands => c.bands > 25
    case StepWorkers => !NewFormat(c) && c.workers.step <= 0
    case StepConns => !NewFormat(c) && c.connections.step <= 0
    case BandDuration => !NewFormat(c) && c.durations.band == ""
    case Strategy => c.strategy !in STRATEGIES
  }

  /** Check `i` fails, and none before it. */
  ghost predicate FailsFirst(c: Config, i: nat)
    requires i < |CHECKS|
  {
    Fails(c, CHECKS[i]) && forall j :: 0 <= j < i ==> !Fails(c, CHECKS[j])
  }

  /** Acceptable is what no check fails. */
  lemma AcceptableExactly(c: Config)
    ensures Acceptable(c) <==> forall i :: 0 <= i < |CHECKS| ==> !Fails(c, CHECKS[i])
  {
    if forall i :: 0 <= i < |CHECKS| ==> !Fails(c, CHECKS[i]) {
      assert CHECKS[0] == MinWorkers && CHECKS[2] == WorkerRange && CHECKS[3] == MinConns && CHECKS[5] == ConnRange;
      assert CHECKS[6] == TooFewBands && CHECKS[7] == TooManyBands && CHECKS[8] == StepWorkers;
      assert CHECKS[9] == StepConns && CHECKS[10] == BandDuration && CHECKS[11] == Strategy;
    }
  }

  /** Only one check fails first, and each check has its own error. */
  lemma OneFirst(c: Config, i: nat)
    requires i < |CHECKS| && FailsFirst(c, i)
    ensures forall k :: 0 <= k < |CHECKS| ==> (CHECKS[i] == CHECKS[k] <==> FailsFirst(c, k))
  {
    forall k | 0 <= k < |CHECKS|
      ensures CHECKS[i] == CHECKS[k] <==> FailsFirst(c, k)
    {
      if i < k {
        assert !(forall j :: 0 <= j < k ==> !Fails(c, CHECKS[j])) by {
          assert Fails(c, CHECKS[i]);
        }
        ChecksDiffer(i, k);
      } else if k < i {
        ChecksDiffer(k, i);
      }
    }
  }

  lemma ChecksDiffer(i: nat, k: nat)
    requires i < k < |CHECKS|
    ensures CHECKS[i] != CHECKS[k]
  {
  }

  function Default(s: string, fallback: string): string {
    if s == "" then fallback else s
  }

  function WithDefaults(c: Config): Config {
    var d := c.durations;
    c.(bands := if c.bands == 0 then 5 else c.bands,
       durations := d.(test := Default(d.test, "30m"), warmup := Default(d.warmup, "60s"),
                       cooldown := Default(d.cooldown, "30s")))
  }

  class Engine {
    var config: Config

    /** Accepts exactly the acceptable configurations. In the new format it fills in
        the blanks, even if the strategy is then rejected. The error is that of the first
        check that fails. */
    method ValidateConfig() returns (result: Result<(), Error>)
      modifies this
      ensures result.Ok? <==> Acceptable(old(config))
      ensures result.Ok? <==>
              var c := old(config);
              && 0 < c.workers.min <= c.workers.max && 0 < c.connections.min <= c.connections.max
              && c.strategy in {"linear", "balanced", "synchronized", "exponential", "fibonacci", ""}
              && (if c.bands > 0 || c.durations.test != "" then c.bands <= 0 || 3 <= c.bands <= 25
                  else c.workers.step > 0 && c.connections.step > 0 && c.durations.band != "")
      ensures forall i :: 0 <= i < |CHECKS| ==> (result == Err(CHECKS[i]) <==> FailsFirst(old(config), i))
      ensures config == if NewFormat(old(config)) && (result.Ok? || result == Err(Strategy))
                        then WithDefaults(old(config)) else old(config)
    {
      ghost var was := config;
      AcceptableExactly(was);
      if config.workers.min <= 0 { OneFirst(was, 0); return Err(MinWorkers); }
      if config.workers.max <= 0 { OneFirst(was, 1); return Err(MaxWorkers); }
      if config.workers.min > config.workers.max { OneFirst(was, 2); return Err(WorkerRange); }
      if config.connections.min <= 0 { OneFirst(was, 3); return Err(MinConns); }
      if config.connections.max <= 0 { OneFirst(was, 4); return Err(MaxConns); }
      if config.connections.min > config.connections.max { OneFirst(was, 5); return Err(ConnRange); }
      if NewFormat(config) {
        if config.bands > 0 {
          if config.bands < 3 { OneFirst(was, 6); return Err(TooFewBands); }
          if config.bands > 25 { OneFirst(was, 7); return Err(TooManyBands); }
        }
        config := WithDefaults(config);
      } else {
        if config.workers.step <= 0 { OneFirst(was, 8); return Err(StepWorkers); }
        if config.connections.step <= 0 { OneFirst(was, 9); return Err(StepConns); }
        if config.durations.band == "" { OneFirst(was, 10); return Err(BandDuration); }
      }
      if config.strategy !in STRATEGIES { OneFirst(was, 11); return Err(Strategy); }
      result := Ok(());
    }
  }

  /** What validation leaves is accepted again, unchanged. */
  lemma ValidationSettles(c: Config)
    requires Acceptable(c) && NewFormat(c)
    ensures Acceptable(WithDefaults(c)) && NewFormat(WithDefaults(c))
    ensures WithDefaults(WithDefaults(c)) == WithDefaults(c)
    ensures WithDefaults(c) == c <==>
              c.bands != 0 && c.durations.test != "" && c.durations.warmup != "" && c.durations.cooldown != ""
  {
  }

  /** What each field is afterwards: as given, or, where it was blank, its own default. */
  lemma FillsBlanks(c: Config)
    ensures var d := WithDefaults(c);
            && d.workers == c.workers && d.connections == c.connections && d.strategy == c.strategy
            && (c.bands == 0 ==> d.bands == 5) && (c.bands != 0 ==> d.bands == c.bands)
            && Filled(d.durations.test, c.durations.test, "30m")
            && Filled(d.durations.warmup, c.durations.warmup, "60s")
            && Filled(d.durations.cooldown, c.durations.cooldown, "30s")
            && d.durations.band == c.durations.band
  {
  }

  predicate Filled(after: string, before: string, fallback: string) {
    (before != "" ==> after == before) && (before == "" ==> after == fallback)
  }

  // ---- Exponential.

  function Min(a: int, b: int): int {
    if a <= b then a else b
  }

  /** Band `i` of the exponential strategy: doubled `i` times, up to the maximum. */
  function Doubled(r: Range, i: nat): int {
    Min(r.min * Pow2(i), r.max)
  }

  function ExponentialBand(w: Range, c: Range, i: nat): Band {
    Band(Doubled(w, i), Doubled(c, i))
  }

  /** It starts at the minimum, and doubles as long as that stays within the maximum. */
  lemma DoubledNext(r: Range, i: nat)
    requires Positive(r)
    ensures Doubled(r, 0) == r.min
    ensures Doubled(r, i + 1) == if 2 * Doubled(r, i) > r.max then r.max else 2 * Doubled(r, i)
    ensures 0 < Doubled(r, i) <= r.max
    ensures Doubled(r, i + 1) == Doubled(r, i) <==> Doubled(r, i) == r.max
  {
    var p := r.min * Pow2(i);
    assert p > 0;
    assert r.min * Pow2(i + 1) == 2 * p;
    assert r.min * Pow2(0) == r.min;
  }

  /** The bands by their closed form, ending with the first that has reached both maxima. */
  method Exponential(w: Range, c: Range) returns (sequence: seq<Band>)
    requires Positive(w) && Positive(c)
    ensures |sequence| > 0
    ensures forall i :: 0 <= i < |sequence| ==> sequence[i] == ExponentialBand(w, c, i)
    ensures forall i :: 0 <= i < |sequence| ==> (sequence[i] == Band(w.max, c.max) <==> i == |sequence| - 1)
  {
    sequence := [];
    var workers, conns := w.min, c.min;
    assert Pow2(0) == 1;
    var done := false;
    while !done && workers <= w.max && conns <= c.max
      invariant forall i :: 0 <= i < |sequence| ==> sequence[i] == ExponentialBand(w, c, i)
      invariant forall i :: 0 <= i < |sequence| ==> (sequence[i] == Band(w.max, c.max) <==> done && i == |sequence| - 1)
      invariant done ==> |sequence| > 0
      invariant !done ==> Band(workers, conns) == ExponentialBand(w, c, |sequence|)
      invariant 0 < workers <= w.max && 0 < conns <= c.max
      decreases !done, w.max - workers + c.max - conns
    {
      DoubledNext(w, |sequence|);
      DoubledNext(c, |sequence|);
      sequence := sequence + [Band(workers, conns)];
      var nextWorkers, nextConns := workers * 2, conns * 2;
      if nextWorkers > w.max {
        nextWorkers := w.max;
      }
      if nextConns > c.max {
        nextConns := c.max;
      }
      if nextWorkers == workers && nextConns == conns {
        done := true;
      } else {
        workers, conns := nextWorkers, nextConns;
      }
    }
  }

  // ---- Fibonacci.

  function Fib(k: nat): nat {
    if k == 0 then 0 else if k == 1 then 1 else Fib(k - 1) + Fib(k - 2)
  }

  ghost predicate IsFib(v: int) {
    exists k: nat :: k >= 2 && Fib(k) == v
  }

  /** From the second on, the Fibonacci numbers rise strictly. */
  lemma {:induction false} FibRises(j: nat, k: nat)
    requires 2 <= j <= k
    ensures Fib(j - 1) >= 1 && Fib(j) <= Fib(k) && (j < k ==> Fib(j) < Fib(k))
  {
    FibPositive(j - 1);
    FibPositive(j);
    if j < k {
      FibRises(j, k - 1);
      FibPositive(k - 2);
    }
  }

  lemma {:induction false} FibPositive(k: nat)
    ensures k >= 1 ==> Fib(k) >= 1
  {
    if k >= 2 {
      FibPositive(k - 1);
    }
  }

  /** Exactly the Fibonacci numbers in the range, ascending, each once. */
  method FibonacciNumbers(min: int, max: int) returns (fib: seq<int>)
    ensures forall v :: v in fib <==> min <= v <= max && IsFib(v)
    ensures forall i, j :: 0 <= i < j < |fib| ==> fib[i] < fib[j]
  {
    var a, b := 1, 1;
    ghost var k: nat := 2;
    assert Fib(2) == Fib(1) + Fib(0);
    while b < min
      invariant k >= 2 && a == Fib(k - 1) && b == Fib(k) && a >= 1
      invariant k == 2 || Fib(k - 1) < min
      decreases min - b
    {
      a, b, k := b, a + b, k + 1;
      FibPositive(k - 1);
    }
    ghost var first := k;
    fib := [];
    while b <= max
      invariant first <= k && a == Fib(k - 1) && b == Fib(k) && a >= 1
      invariant |fib| == k - first
      invariant forall i :: 0 <= i < |fib| ==> fib[i] == Fib(first + i)
      invariant forall i :: 0 <= i < |fib| ==> fib[i] <= max
      decreases max - b
    {
      fib := fib + [b];
      a, b, k := b, a + b, k + 1;
      FibPositive(k - 1);
    }
    InRange(fib, first, k, min, max);
  }

  lemma InRange(fib: seq<int>, first: nat, k: nat, min: int, max: int)
    requires 2 <= first <= k && |fib| == k - first
    requires forall i :: 0 <= i < |fib| ==> fib[i] == Fib(first + i) && fib[i] <= max
    requires (first == 2 || Fib(first - 1) < min) && min <= Fib(first) && max < Fib(k)
    ensures forall v :: v in fib <==> min <= v <= max && IsFib(v)
    ensures forall i, j :: 0 <= i < j < |fib| ==> fib[i] < fib[j]
  {
    forall i, j | 0 <= i <= j < |fib|
      ensures min <= fib[i] && (i < j ==> fib[i] < fib[j])
    {
      FibRises(first, first + i);
      FibRises(first + i, first + j);
    }
    forall v | min <= v <= max && IsFib(v)
      ensures v in fib
    {
      var m: nat :| m >= 2 && Fib(m) == v;
      if m >= k {
        FibRises(k, m);
        assert false;
      } else if m < first {
        FibRises(m, first - 1);
        assert false;
      } else {
        assert fib[m - first] == v;
      }
    }
    forall v | v in fib
      ensures IsFib(v)
    {
      var i :| 0 <= i < |fib| && fib[i] == v;
      assert Fib(first + i) == v;
    }
  }

  /** Every pair of a Fibonacci number of workers and one of connections, workers first. */
  method Fibonacci(w: Range, c: Range) returns (sequence: seq<Band>)
    ensures forall b :: b in sequence <==>
              w.min <= b.workers <= w.max && IsFib(b.workers) && c.min <= b.connections <= c.max && IsFib(b.connections)
    ensures forall i, j :: 0 <= i < j < |sequence| ==> Precedes(sequence[i], sequence[j])
  {
    var fibWorkers := FibonacciNumbers(w.min, w.max);
    var fibConns := FibonacciNumbers(c.min, c.max);
    sequence := [];
    for i := 0 to |fibWorkers|
      invariant sequence == Pairs(fibWorkers[..i], fibConns)
    {
      assert fibWorkers[..i + 1] == fibWorkers[..i] + [fibWorkers[i]];
      for j := 0 to |fibConns|
        invariant sequence == Pairs(fibWorkers[..i], fibConns) + With(fibWorkers[i], fibConns[..j])
      {
        assert fibConns[j] in fibConns && fibWorkers[i] in fibWorkers;
        assert fibConns[..j + 1] == fibConns[..j] + [fibConns[j]];
        if fibWorkers[i] <= w.max && fibConns[j] <= c.max {
          sequence := sequence + [Band(fibWorkers[i], fibConns[j])];
        }
      }
      assert fibConns[..|fibConns|] == fibConns;
    }
    assert fibWorkers[..|fibWorkers|] == fibWorkers;
    PairsAre(fibWorkers, fibConns);
  }

  /** Ordered by workers, then connections. */
  predicate Precedes(a: Band, b: Band) {
    a.workers < b.workers || (a.workers == b.workers && a.connections < b.connections)
  }

  function With(w: int, conns: seq<int>): (s: seq<Band>)
    ensures |s| == |conns|
  {
    seq(|conns|, i requires 0 <= i < |conns| => Band(w, conns[i]))
  }

  function Pairs(workers: seq<int>, conns: seq<int>): seq<Band> {
    if workers == [] then []
    else Pairs(workers[..|workers| - 1], conns) + With(workers[|workers| - 1], conns)
  }

  predicate Ascending(s: seq<int>) {
    forall i, j :: 0 <= i < j < |s| ==> s[i] < s[j]
  }

  lemma {:induction false} PairsAre(workers: seq<int>, conns: seq<int>)
    requires Ascending(workers) && Ascending(conns)
    ensures forall b :: b in Pairs(workers, conns) <==> b.workers in workers && b.connections in conns
    ensures forall i, j :: 0 <= i < j < |Pairs(workers, conns)| ==>
                             Precedes(Pairs(workers, conns)[i], Pairs(workers, conns)[j])
  {
    if workers != [] {
      var front, last := workers[..|workers| - 1], workers[|workers| - 1];
      PairsAre(front, conns);
      assert workers == front + [last];
      var p, q := Pairs(front, conns), With(last, conns);
      forall b
        ensures b in q <==> b.workers == last && b.connections in conns
      {
        if b.workers == last && b.connections in conns {
          var i :| 0 <= i < |conns| && conns[i] == b.connections;
          assert q[i] == b;
        }
      }
      forall i, j | 0 <= i < j < |p + q|
        ensures Precedes((p + q)[i], (p + q)[j])
      {
        if i < |p| && j >= |p| {
          assert p[i] in p;
          var k :| 0 <= k < |front| && front[k] == p[i].workers;
          assert workers[k] < workers[|front|];
        }
      }
    }
  }

  // ---- Linear.

  /** The connection counts from `c` on, for one worker count. */
  function Row(w: int, c: int, conns: Range): seq<Band>
    requires conns.step > 0
    decreases conns.max - c
  {
    if c > conns.max then [] else [Band(w, c)] + Row(w, c + conns.step, conns)
  }

  /** The grid from worker count `w` on, row by row. */
  function Grid(w: int, workers: Range, conns: Range): seq<Band>
    requires workers.step > 0 && conns.step > 0
    decreases workers.max - w
  {
    if w > workers.max then [] else Row(w, conns.min, conns) + Grid(w + workers.step, workers, conns)
  }

  /** How many steps stay within the range. */
  function Steps(v: int, r: Range): nat
    requires r.step > 0
    decreases r.max - v
  {
    if v > r.max then 0 else 1 + Steps(v + r.step, r)
  }

  lemma {:induction false} RowCells(w: int, c: int, conns: Range)
    requires conns.step > 0
    ensures |Row(w, c, conns)| == Steps(c, conns)
    ensures forall j :: 0 <= j < |Row(w, c, conns)| ==> Row(w, c, conns)[j] == Band(w, c + j * conns.step)
    decreases conns.max - c
  {
    if c <= conns.max {
      var rest := Row(w, c + conns.step, conns);
      RowCells(w, c + conns.step, conns);
      forall j | 0 <= j < |Row(w, c, conns)|
        ensures Row(w, c, conns)[j] == Band(w, c + j * conns.step)
      {
        if j > 0 {
          assert Row(w, c, conns)[j] == rest[j - 1];
          assert j * conns.step == conns.step + (j - 1) * conns.step;
        }
      }
    }
  }

  lemma {:induction false} GridSize(w: int, workers: Range, conns: Range)
    requires workers.step > 0 && conns.step > 0
    ensures |Grid(w, workers, conns)| == Steps(w, workers) * Steps(conns.min, conns)
    decreases workers.max - w
  {
    if w <= workers.max {
      RowCells(w, conns.min, conns);
      GridSize(w + workers.step, workers, conns);
    }
  }

  /** Row `i`, column `j` of the grid. */
  lemma {:induction false} GridCell(w: int, workers: Range, conns: Range, i: nat, j: nat)
    requires workers.step > 0 && conns.step > 0
    requires i < Steps(w, workers) && j < Steps(conns.min, conns)
    ensures var k := i * Steps(conns.min, conns) + j;
            && 0 <= k < |Grid(w, workers, conns)|
            && Grid(w, workers, conns)[k] == Band(w + i * workers.step, conns.min + j * conns.step)
    decreases i
  {
    RowCells(w, conns.min, conns);
    var cols := Steps(conns.min, conns);
    if i > 0 {
      GridCell(w + workers.step, workers, conns, i - 1, j);
      assert i * cols == cols + (i - 1) * cols;
      assert i * workers.step == workers.step + (i - 1) * workers.step;
      var k := (i - 1) * cols + j;
      assert Grid(w, workers, conns)[cols + k] == Grid(w + workers.step, workers, conns)[k];
    }
  }

  function Take(s: seq<Band>, n: nat): seq<Band> {
    if |s| <= n then s else s[..n]
  }

  /** The integer square root. */
  function Root(n: nat): (r: nat)
    ensures r * r <= n < (r + 1) * (r + 1)
  {
    if n == 0 then 0
    else
      var r := Root(n - 1);
      if (r + 1) * (r + 1) <= n then r + 1 else r
  }

  function StepFor(range: int, target: int): int {
    if target > 0 && range > 0 && range / target > 0 then range / target else 1
  }

  function MaxBands(bands: int): nat {
    if bands <= 0 then 64 else bands
  }

  /** The steps as configured, or, unless both are, worked out from the number of bands. */
  function WithSteps(w: Range, c: Range, maxBands: nat): (Range, Range)
    requires maxBands > 0
  {
    if w.step > 0 && c.step > 0 then (w, c)
    else
      var target := Root(maxBands);
      (w.(step := StepFor(w.max - w.min, target)),
       c.(step := StepFor(c.max - c.min, if target > 0 then maxBands / target else 0)))
  }

  /** The largest step that fits the target number of times into the range; one, if the
      range is shorter than the target. */
  lemma StepForExactly(range: int, target: int)
    ensures 0 < target <= range ==>
              StepFor(range, target) * target <= range < (StepFor(range, target) + 1) * target
    ensures range < target || range <= 0 || target <= 0 ==> StepFor(range, target) == 1
  {
    if 0 < target <= range {
      QuotientPositive(range, target);
      var q := range / target;
      assert range < (q + 1) * target;
    }
  }

  /** `step` fits `target` times into the range, and a larger one does not. */
  predicate FitsTimes(step: int, target: int, range: int) {
    if target <= range then step * target <= range < (step + 1) * target else step == 1
  }

  /** Unless both steps are configured, both are worked out: for the workers to fit as
      often as the root of the number of bands, for the connections as often as that goes
      into the number of bands. */
  lemma WorkedOutStepsExactly(w: Range, c: Range, maxBands: nat)
    requires Positive(w) && Positive(c) && maxBands > 0
    ensures Root(maxBands) > 0 && maxBands / Root(maxBands) > 0
    ensures var (workers, conns) := WithSteps(w, c, maxBands);
            && workers == w.(step := workers.step) && conns == c.(step := conns.step)
            && (if w.step > 0 && c.step > 0 then workers.step == w.step && conns.step == c.step
                else
                  && FitsTimes(workers.step, Root(maxBands), w.max - w.min)
                  && FitsTimes(conns.step, maxBands / Root(maxBands), c.max - c.min))
  {
    var target := Root(maxBands);
    QuotientPositive(maxBands, target);
    StepForExactly(w.max - w.min, target);
    StepForExactly(c.max - c.min, maxBands / target);
  }

  /** The first cells of the grid, as many as there may be bands. */
  method Linear(w: Range, c: Range, bands: int) returns (sequence: seq<Band>)
    requires Positive(w) && Positive(c)
    ensures var (workers, conns) := WithSteps(w, c, MaxBands(bands));
            && workers.step > 0 && conns.step > 0
            && sequence == Take(Grid(w.min, workers, conns), MaxBands(bands))
    ensures |sequence| > 0 && sequence[0] == Band(w.min, c.min)
    ensures |sequence| <= if bands <= 0 then 64 else bands
  {
    var maxBands := bands;
    if maxBands <= 0 {
      maxBands := 64;
    }
    var stepWorkers, stepConns := w.step, c.step;
    if stepWorkers <= 0 || stepConns <= 0 {
      var workerRange, connRange := w.max - w.min, c.max - c.min;
      var targetWorkers := Root(maxBands);
      assert targetWorkers > 0;
      var targetConns := maxBands / targetWorkers;
      stepWorkers := WorkOutStep(workerRange, targetWorkers);
      stepConns := WorkOutStep(connRange, targetConns);
    }
    sequence := Cells(w.(step := stepWorkers), c.(step := stepConns), maxBands);
  }

  method WorkOutStep(range: int, target: int) returns (step: int)
    ensures step == StepFor(range, target)
  {
    if target > 0 && range > 0 {
      step := range / target;
      if step <= 0 {
        step := 1;
      }
    } else {
      step := 1;
    }
  }

  method Cells(w: Range, c: Range, maxBands: nat) returns (sequence: seq<Band>)
    requires w.step > 0 && c.step > 0 && maxBands > 0
    ensures sequence == Take(Grid(w.min, w, c), maxBands)
  {
    sequence := [];
    ghost var rest := Grid(w.min, w, c);
    var workers := w.min;
    while workers <= w.max && |sequence| < maxBands
      invariant Grid(w.min, w, c) == sequence + rest
      invariant |sequence| <= maxBands
      invariant |sequence| < maxBands ==> rest == Grid(workers, w, c)
      decreases w.max - workers
    {
      var conns := c.min;
      ghost var below := Grid(workers + w.step, w, c);
      while conns <= c.max && |sequence| < maxBands
        invariant Grid(w.min, w, c) == sequence + rest
        invariant |sequence| <= maxBands
        invariant rest == Row(workers, conns, c) + below
        decreases c.max - conns
      {
        sequence := sequence + [Band(workers, conns)];
        conns := conns + c.step;
        rest := Row(workers, conns, c) + below;
      }
      workers := workers + w.step;
    }
  }

  // ---- When the grid fits.

  /** How many steps fit, in closed form. */
  lemma {:induction false} StepsClosed(v: int, r: Range)
    requires r.step > 0
    ensures Steps(v, r) == if v > r.max then 0 else (r.max - v) / r.step + 1
    decreases r.max - v
  {
    if v <= r.max {
      StepsClosed(v + r.step, r);
      var left := r.max - v;
      if left < r.step {
        EuclideanUnique(left, r.step, 0, left);
      } else {
        var q := (left - r.step) / r.step;
        assert left - r.step == q * r.step + (left - r.step) % r.step;
        EuclideanUnique(left, r.step, q + 1, (left - r.step) % r.step);
      }
    }
  }

  /** The band in row `i` and column `j`. */
  predicate IsCell(b: Band, workers: Range, conns: Range, i: int, j: int) {
    b == Band(workers.min + i * workers.step, conns.min + j * conns.step)
  }

  /** Place `k` of a grid is in row `i` and column `j` of `cols`. */
  predicate At(k: int, i: int, j: int, cols: int) {
    0 <= i && 0 <= j < cols && k == i * cols + j
  }

  lemma Divided(k: nat, cols: nat)
    requires cols > 0
    ensures At(k, k / cols, k % cols, cols)
  {
  }

  lemma RowOf(k: nat, i: int, j: int, cols: nat, rows: nat)
    requires At(k, i, j, cols) && k < rows * cols
    ensures i < rows
  {
    Smaller(i, rows, cols);
  }

  /** The `k`-th band of the sequence, from the length of a row. */
  lemma LinearBand(workers: Range, conns: Range, maxBands: nat, cols: nat, k: nat, i: nat, j: nat)
    requires workers.step > 0 && conns.step > 0 && cols == Steps(conns.min, conns) && At(k, i, j, cols)
    requires k < |Take(Grid(workers.min, workers, conns), maxBands)|
    ensures IsCell(Take(Grid(workers.min, workers, conns), maxBands)[k], workers, conns, i, j)
  {
    GridSize(workers.min, workers, conns);
    RowOf(k, i, j, cols, Steps(workers.min, workers));
    GridCell(workers.min, workers, conns, i, j);
  }

  /** The sequence has a band with the `i`-th worker count. */
  ghost predicate Visits(sequence: seq<Band>, workers: Range, i: nat) {
    exists k :: 0 <= k < |sequence| && sequence[k].workers == workers.min + i * workers.step
  }

  /** Which worker counts the sequence visits: the first, and one more for each full row of
      connections before its last band. */
  lemma WorkersVisited(workers: Range, conns: Range, maxBands: nat, i: nat)
    requires Positive(workers) && Positive(conns) && workers.step > 0 && conns.step > 0 && maxBands > 0
    ensures var sequence := Take(Grid(workers.min, workers, conns), maxBands);
            var cols := (conns.max - conns.min) / conns.step + 1;
            cols > 0 && |sequence| > 0 && (Visits(sequence, workers, i) <==> i <= (|sequence| - 1) / cols)
  {
    var sequence, cols := Take(Grid(workers.min, workers, conns), maxBands), Steps(conns.min, conns);
    StepsClosed(conns.min, conns);
    assert Row(workers.min, conns.min, conns) != [];
    if Visits(sequence, workers, i) {
      VisitedOnly(workers, conns, maxBands, cols, i);
    }
    if i <= (|sequence| - 1) / cols {
      VisitedThere(workers, conns, maxBands, cols, i);
    }
  }

  lemma VisitedOnly(workers: Range, conns: Range, maxBands: nat, cols: nat, i: nat)
    requires workers.step > 0 && conns.step > 0 && cols == Steps(conns.min, conns) > 0
    requires Visits(Take(Grid(workers.min, workers, conns), maxBands), workers, i)
    ensures i <= (|Take(Grid(workers.min, workers, conns), maxBands)| - 1) / cols
  {
    var sequence := Take(Grid(workers.min, workers, conns), maxBands);
    var k :| 0 <= k < |sequence| && sequence[k].workers == workers.min + i * workers.step;
    Divided(k, cols);
    LinearBand(workers, conns, maxBands, cols, k, k / cols, k % cols);
    SameRow(k / cols, i, workers.step);
    QuotientRises(k, |sequence| - 1, cols);
  }

  lemma VisitedThere(workers: Range, conns: Range, maxBands: nat, cols: nat, i: nat)
    requires workers.step > 0 && conns.step > 0 && cols == Steps(conns.min, conns) > 0
    requires |Take(Grid(workers.min, workers, conns), maxBands)| > 0
    requires i <= (|Take(Grid(workers.min, workers, conns), maxBands)| - 1) / cols
    ensures Visits(Take(Grid(workers.min, workers, conns), maxBands), workers, i)
  {
    var sequence := Take(Grid(workers.min, workers, conns), maxBands);
    var last, k := |sequence| - 1, i * cols;
    Divided(last, cols);
    AtMostTimes(i, last / cols, cols);
    AtMostTimes(0, i, cols);
    LinearBand(workers, conns, maxBands, cols, k, i, 0);
    assert sequence[k].workers == workers.min + i * workers.step;
  }

  lemma SameRow(i: int, j: int, step: int)
    requires step > 0 && i * step == j * step
    ensures i == j
  {
    if i < j { AtMostTimes(i + 1, j, step); }
    if j < i { AtMostTimes(j + 1, i, step); }
  }

  lemma AtMostTimes(i: int, j: int, n: int)
    requires i <= j && n > 0
    ensures i * n <= j * n
  {
    assert (j - i) * n >= 0;
  }

  lemma QuotientRises(a: nat, b: nat, n: nat)
    requires a <= b && n > 0
    ensures a / n <= b / n
  {
    var p, q := a / n, b / n;
    assert p * n <= a <= b < (q + 1) * n;
    Smaller(p, q + 1, n);
  }

  /** The cells of the grid over both ranges. */
  function CellCount(w: Range, c: Range): int
    requires w.step > 0 && c.step > 0
  {
    ((w.max - w.min) / w.step + 1) * ((c.max - c.min) / c.step + 1)
  }

  lemma StepsPositive(w: Range, c: Range, maxBands: nat)
    requires maxBands > 0
    ensures var (workers, conns) := WithSteps(w, c, maxBands);
            && workers.step > 0 && conns.step > 0
            && workers == w.(step := workers.step) && conns == c.(step := conns.step)
  {
  }

  /** The sequence leaves cells out exactly when the ranges and steps make more of them
      than there may be bands. */
  lemma LinearCutsExactly(w: Range, c: Range, maxBands: nat)
    requires Positive(w) && Positive(c) && maxBands > 0
    ensures var (workers, conns) := WithSteps(w, c, maxBands);
            && workers.step > 0 && conns.step > 0
            && |Grid(w.min, workers, conns)| == CellCount(workers, conns)
            && (Take(Grid(w.min, workers, conns), maxBands) != Grid(w.min, workers, conns)
                <==> CellCount(workers, conns) > maxBands)
  {
    StepsPositive(w, c, maxBands);
    var (workers, conns) := WithSteps(w, c, maxBands);
    GridSize(w.min, workers, conns);
    StepsClosed(w.min, workers);
    StepsClosed(c.min, conns);
  }

  /** With room for the targeted steps in both ranges, worked-out steps always cut. */
  lemma WorkedOutStepsOvershoot(w: Range, c: Range, maxBands: nat)
    requires Positive(w) && Positive(c) && maxBands > 0 && (w.step <= 0 || c.step <= 0)
    requires w.max - w.min >= Root(maxBands)
    requires Root(maxBands) > 0 && c.max - c.min >= maxBands / Root(maxBands)
    ensures var (workers, conns) := WithSteps(w, c, maxBands);
            workers.step > 0 && conns.step > 0 && CellCount(workers, conns) > maxBands
  {
    var rows := Root(maxBands);
    var cols := maxBands / rows;
    var (workers, conns) := WithSteps(w, c, maxBands);
    TargetsCover(maxBands, rows, cols);
    TargetReached(w.max - w.min, rows);
    TargetReached(c.max - c.min, cols);
    Product((w.max - w.min) / workers.step + 1, (c.max - c.min) / conns.step + 1, rows + 1, cols + 1);
  }

  /** Dividing by the step for a target gives at least the target. */
  lemma TargetReached(range: int, target: int)
    requires 0 < target <= range
    ensures StepFor(range, target) > 0 && range / StepFor(range, target) >= target
  {
    QuotientPositive(range, target);
    var step := range / target;
    AtLeast(range, step, target);
  }

  lemma AtLeast(range: int, step: int, target: int)
    requires step > 0 && target * step <= range
    ensures range / step >= target
  {
    var q := range / step;
    assert range < (q + 1) * step;
    Smaller(target, q + 1, step);
  }

  lemma QuotientPositive(range: int, target: int)
    requires 0 < target <= range
    ensures range / target > 0 && target * (range / target) <= range
  {
  }

  lemma TargetsCover(maxBands: nat, rows: nat, cols: nat)
    requires rows > 0 && cols == maxBands / rows && rows * rows <= maxBands
    ensures cols > 0 && (rows + 1) * (cols + 1) > maxBands
  {
    assert maxBands == rows * cols + maxBands % rows;
    assert rows * rows >= rows;
    QuotientPositive(maxBands, rows);
  }

  lemma Product(a: nat, b: nat, c: nat, d: nat)
    requires a >= c && b >= d
    ensures a * b >= c * d
  {
    assert a * b >= c * b >= c * d;
  }

  /** Worked-out steps can also fit: one cell, five bands. */
  lemma WorkedOutStepsCanFit()
    ensures var (workers, conns) := WithSteps(Range(1, 1, 0), Range(1, 1, 0), 5);
            workers.step > 0 && conns.step > 0 && CellCount(workers, conns) == 1
  {
  }

  /** And cut without room for the target: seven steps in eight rows, 64 bands. */
  lemma WorkedOutStepsCanCutEarly()
    ensures var (workers, conns) := WithSteps(Range(1, 8, 0), Range(1, 1001, 0), 64);
            && 8 - 1 < Root(64)
            && workers.step > 0 && conns.step > 0 && CellCount(workers, conns) > 64
  {
    RootIs(64, 8);
    assert 64 / 8 == 8 && StepFor(7, 8) == 1 && StepFor(1000, 8) == 125;
    assert 7 / 1 + 1 == 8 && 1000 / 125 + 1 == 9;
  }

  lemma RootIs(n: nat, r: nat)
    requires r * r <= n < (r + 1) * (r + 1)
    ensures Root(n) == r
  {
    var q := Root(n);
    if q < r {
      Product(r, r, q + 1, q + 1);
    } else if r < q {
      Product(q, q, r + 1, r + 1);
    }
  }

  /** Sixteen bands over ten to a hundred, both ways: rows of five, so four worker counts. */
  lemma SixteenBands(k: nat)
    requires k < 16
    ensures var (workers, conns) := WithSteps(Range(10, 100, 0), Range(10, 100, 0), 16);
            && workers.step == conns.step == 22
            && var sequence := Take(Grid(10, workers, conns), 16);
               |sequence| == 16 && sequence[k] == Band(10 + (k / 5) * 22, 10 + (k % 5) * 22)
  {
    RootIs(16, 4);
    var (workers, conns) := WithSteps(Range(10, 100, 0), Range(10, 100, 0), 16);
    assert 90 / 4 == 22 && 16 / 4 == 4 && 90 / 22 == 4;
    StepsClosed(10, conns);
    GridSize(10, workers, conns);
    Divided(k, 5);
    LinearBand(workers, conns, 16, 5, k, k / 5, k % 5);
  }
}
