/** The three interpolating percentile routines, in exact reals. */
module Percentiles {

  import opened Bits

  ghost predicate IsSorted(s: seq<real>) {
    forall i, j :: 0 <= i <= j < |s| ==> s[i] <= s[j]
  }

  // ---- What all three compute.

  /** A position between the first sample and the last. */
  predicate InReach(s: seq<real>, x: real) {
    0.0 <= x && x.Floor < |s| && x <= |s| as real - 1.0
  }

  /** The point `w` of the way from `a` to `b`. */
  function Line(a: real, b: real, w: real): real {
    a + w * (b - a)
  }

  /** Straight lines between neighbouring samples. */
  function Interpolate(s: seq<real>, x: real): real
    requires InReach(s, x)
  {
    var k := x.Floor;
    if k + 1 == |s| then s[k] else Line(s[k], s[k + 1], x - k as real)
  }

  function Position(s: seq<real>, p: real): real {
    p * (|s| as real - 1.0)
  }

  predicate Fraction(p: real) {
    0.0 <= p <= 1.0
  }

  lemma PositionInReach(s: seq<real>, p: real)
    requires s != [] && Fraction(p)
    ensures InReach(s, Position(s, p))
  {
    var n := |s| as real - 1.0;
    Ordered(0.0, p, n, 0.0, Position(s, p));
    Ordered(p, 1.0, n, Position(s, p), n);
    Reached(s, Position(s, p));
  }

  lemma Reached(s: seq<real>, x: real)
    requires 0.0 <= x <= |s| as real - 1.0
    ensures InReach(s, x)
  {
  }

  lemma Ordered(p: real, q: real, m: real, pm: real, qm: real)
    requires p <= q && m >= 0.0 && pm == p * m && qm == q * m
    ensures pm <= qm
  {
    assert qm - pm == (q - p) * m;
  }

  /** The percentile `p` of sorted samples. */
  function Percentile(s: seq<real>, p: real): real
    requires s != [] && Fraction(p)
  {
    PositionInReach(s, p);
    Interpolate(s, Position(s, p))
  }

  // ---- Properties.

  lemma Between(a: real, b: real, w: real)
    requires a <= b && 0.0 <= w <= 1.0
    ensures a <= Line(a, b, w) <= b
    ensures w == 0.0 ==> Line(a, b, w) == a
  {
    var part := w * (b - a);
    Ordered(0.0, w, b - a, 0.0, part);
    Ordered(w, 1.0, b - a, part, b - a);
  }

  lemma LineMonotone(a: real, b: real, w: real, w': real)
    requires a <= b && w <= w'
    ensures Line(a, b, w) <= Line(a, b, w')
  {
    Ordered(w, w', b - a, w * (b - a), w' * (b - a));
  }

  /** At least as many samples as the position says are no larger, and all from there on
      are no smaller. */
  lemma Splits(s: seq<real>, x: real, i: nat)
    requires IsSorted(s) && InReach(s, x) && i < |s|
    ensures i as real <= x ==> s[i] <= Interpolate(s, x)
    ensures x <= i as real ==> Interpolate(s, x) <= s[i]
    ensures x == i as real ==> Interpolate(s, x) == s[i]
  {
    var k := x.Floor;
    if k + 1 < |s| {
      Between(s[k], s[k + 1], x - k as real);
    }
  }

  lemma InterpolateMonotone(s: seq<real>, x: real, y: real)
    requires IsSorted(s) && InReach(s, x) && InReach(s, y) && x <= y
    ensures Interpolate(s, x) <= Interpolate(s, y)
  {
    var k := x.Floor;
    if k == y.Floor {
      if k + 1 < |s| {
        LineMonotone(s[k], s[k + 1], x - k as real, y - k as real);
      }
    } else {
      Splits(s, x, k + 1);
      Splits(s, y, k + 1);
    }
  }

  /** A higher percentile is never smaller, across samples too. */
  lemma PercentileMonotone(s: seq<real>, p: real, q: real)
    requires IsSorted(s) && s != [] && Fraction(p) && Fraction(q) && p <= q
    ensures Percentile(s, p) <= Percentile(s, q)
  {
    PositionInReach(s, p);
    PositionInReach(s, q);
    Ordered(p, q, |s| as real - 1.0, Position(s, p), Position(s, q));
    InterpolateMonotone(s, Position(s, p), Position(s, q));
  }

  /** It never leaves the samples, and is the sample itself at a whole rank. */
  lemma PercentileBetween(s: seq<real>, p: real)
    requires IsSorted(s) && s != [] && Fraction(p)
    ensures s[0] <= Percentile(s, p) <= s[|s| - 1]
    ensures forall i :: 0 <= i < |s| && Position(s, p) == i as real ==> Percentile(s, p) == s[i]
    ensures Percentile(s, 0.0) == s[0] && Percentile(s, 1.0) == s[|s| - 1]
  {
    PositionInReach(s, p);
    var x := Position(s, p);
    Splits(s, x, 0);
    Splits(s, x, |s| - 1);
    forall i | 0 <= i < |s| && x == i as real
      ensures Percentile(s, p) == s[i]
    {
      Splits(s, x, i);
    }
    PositionInReach(s, 0.0);
    PositionInReach(s, 1.0);
    Splits(s, Position(s, 0.0), 0);
    Splits(s, Position(s, 1.0), |s| - 1);
  }

  /** `v` lies between `a` and `b` as `x` lies between `k` and `k + 1`. */
  ghost predicate Blends(v: real, k: int, x: real, a: real, b: real) {
    v == ((k + 1) as real - x) * a + (x - k as real) * b
  }

  lemma LineBlends(a: real, b: real, x: real, k: int)
    ensures Blends(Line(a, b, x - k as real), k, x, a, b)
  {
    var w := x - k as real;
    assert a + w * (b - a) == (1.0 - w) * a + w * b;
  }

  /** Between two neighbouring samples each counts by how close the position is to it. */
  lemma InterpolateExactly(s: seq<real>, x: real, k: nat)
    requires InReach(s, x) && k + 1 < |s| && k as real <= x <= (k + 1) as real
    ensures Blends(Interpolate(s, x), k, x, s[k], s[k + 1])
  {
    if x < (k + 1) as real {
      assert x.Floor == k;
      LineBlends(s[k], s[k + 1], x, k);
    } else {
      assert x.Floor == k + 1;
      if k + 2 < |s| {
        NoWeight(s[k + 1], s[k + 2], x - (k + 1) as real);
      }
      LastWeight(s[k], s[k + 1], x, k);
    }
  }

  lemma LastWeight(a: real, b: real, x: real, k: int)
    requires x == (k + 1) as real
    ensures Blends(b, k, x, a, b)
  {
  }

  /** So the percentile `p` of `n` samples is at position `p * (n - 1)`. */
  lemma PercentileExactly(s: seq<real>, p: real, k: nat)
    requires Fraction(p) && k + 1 < |s| && k as real <= p * (|s| as real - 1.0) <= (k + 1) as real
    ensures Blends(Percentile(s, p), k, p * (|s| as real - 1.0), s[k], s[k + 1])
  {
    PositionInReach(s, p);
    InterpolateExactly(s, Position(s, p), k);
  }

  /** `v` is `x` steps of length `d` above `a`. */
  ghost predicate Up(v: real, a: real, x: real, d: real) {
    v == a + x * d
  }

  lemma UpBlends(v: real, k: int, x: real, a: real, b: real, first: real, d: real)
    requires Blends(v, k, x, a, b) && Up(a, first, k as real, d) && Up(b, first, (k + 1) as real, d)
    ensures Up(v, first, x, d)
  {
    var w := x - k as real;
    assert (k + 1) as real == k as real + 1.0;
    assert v == (1.0 - w) * a + w * b;
    assert b == a + d by {
      assert (k as real + 1.0) * d == k as real * d + d;
    }
    assert v == a + w * d by {
      assert (1.0 - w) * a + w * (a + d) == a + w * d;
    }
    assert k as real * d + w * d == x * d;
  }

  lemma UpShare(v: real, first: real, last: real, p: real, n: real, d: real)
    requires Up(v, first, p * n, d) && Up(last, first, n, d)
    ensures Up(v, first, p, last - first)
  {
    assert (p * n) * d == p * (n * d);
  }

  /** Of evenly spaced samples the percentile is that share of the way from the first to
      the last. */
  lemma PercentileOfEven(s: seq<real>, p: real, d: real)
    requires s != [] && Fraction(p) && forall i :: 0 <= i < |s| ==> Up(s[i], s[0], i as real, d)
    ensures Up(Percentile(s, p), s[0], p, s[|s| - 1] - s[0])
  {
    PositionInReach(s, p);
    var x, n := Position(s, p), |s| as real - 1.0;
    if |s| == 1 {
      Splits(s, x, 0);
    } else {
      var k := if x.Floor + 1 < |s| then x.Floor else |s| - 2;
      PercentileExactly(s, p, k);
      UpBlends(Percentile(s, p), k, x, s[k], s[k + 1], s[0], d);
      UpShare(Percentile(s, p), s[0], s[|s| - 1], p, n, d);
    }
  }

  /** `r` is at position `x` on the straight lines between neighbouring samples. */
  ghost predicate OnLines(r: real, s: seq<real>, x: real) {
    forall k :: 0 <= k < |s| - 1 && k as real <= x <= (k + 1) as real ==> Blends(r, k, x, s[k], s[k + 1])
  }

  lemma PercentileOnLines(s: seq<real>, p: real)
    requires s != [] && Fraction(p)
    ensures OnLines(Percentile(s, p), s, p * (|s| as real - 1.0))
  {
    var x := p * (|s| as real - 1.0);
    forall k | 0 <= k < |s| - 1 && k as real <= x <= (k + 1) as real
      ensures Blends(Percentile(s, p), k, x, s[k], s[k + 1])
    {
      PercentileExactly(s, p, k);
    }
  }

  ghost predicate InUnit(v: real, unit: real, w: real) {
    v == unit * w
  }

  /** Changing the unit of the samples changes the unit of the percentile. */
  lemma PercentileScales(s: seq<real>, t: seq<real>, unit: real, p: real)
    requires |s| == |t| > 0 && Fraction(p)
    requires forall i :: 0 <= i < |s| ==> InUnit(t[i], unit, s[i])
    ensures InUnit(Percentile(t, p), unit, Percentile(s, p))
  {
    PositionInReach(s, p);
    PositionInReach(t, p);
    InterpolateScales(s, t, unit, Position(s, p));
  }

  lemma InterpolateScales(s: seq<real>, t: seq<real>, unit: real, x: real)
    requires |s| == |t| && InReach(s, x)
    requires forall i :: 0 <= i < |s| ==> InUnit(t[i], unit, s[i])
    ensures InUnit(Interpolate(t, x), unit, Interpolate(s, x))
  {
    var k := x.Floor;
    if k + 1 < |s| {
      LineScales(s[k], s[k + 1], t[k], t[k + 1], x - k as real, unit);
    }
  }

  lemma LineScales(a: real, b: real, a': real, b': real, w: real, unit: real)
    requires InUnit(a', unit, a) && InUnit(b', unit, b)
    ensures InUnit(Line(a', b', w), unit, Line(a, b, w))
  {
    assert w * (b' - a') == unit * (w * (b - a));
  }

  // ---- Sorting, as the library does it.

  function Insert(x: real, s: seq<real>): seq<real> {
    if s == [] || x <= s[0] then [x] + s else [s[0]] + Insert(x, s[1..])
  }

  function Sorted(s: seq<real>): seq<real> {
    if s == [] then [] else Insert(s[|s| - 1], Sorted(s[..|s| - 1]))
  }

  lemma {:induction false} InsertSorts(x: real, s: seq<real>)
    requires IsSorted(s)
    ensures IsSorted(Insert(x, s)) && multiset(Insert(x, s)) == multiset(s) + multiset{x}
  {
    if s != [] && x > s[0] {
      InsertSorts(x, s[1..]);
      assert s == [s[0]] + s[1..];
      var rest := Insert(x, s[1..]);
      forall j | 0 <= j < |rest|
        ensures s[0] <= rest[j]
      {
        assert rest[j] in multiset(rest);
        assert rest[j] in multiset(s[1..]) || rest[j] == x;
      }
    }
  }

  lemma {:induction false} SortedSorts(s: seq<real>)
    ensures IsSorted(Sorted(s)) && multiset(Sorted(s)) == multiset(s) && |Sorted(s)| == |s|
  {
    if s != [] {
      SortedSorts(s[..|s| - 1]);
      InsertSorts(s[|s| - 1], Sorted(s[..|s| - 1]));
      assert s == s[..|s| - 1] + [s[|s| - 1]];
      assert multiset(Sorted(s)) == multiset(s);
      assert |Sorted(s)| == |multiset(Sorted(s))|;
    }
  }

  lemma SameHead(s: seq<real>, t: seq<real>)
    requires IsSorted(s) && IsSorted(t) && multiset(s) == multiset(t) && s != [] && t != []
    ensures s[0] == t[0]
  {
    assert s[0] in multiset(t) && t[0] in multiset(s);
    var i :| 0 <= i < |t| && t[i] == s[0];
    var j :| 0 <= j < |s| && s[j] == t[0];
  }

  lemma TailCounts(s: seq<real>)
    requires s != []
    ensures multiset(s[1..]) == multiset(s) - multiset{s[0]}
  {
    assert s == [s[0]] + s[1..];
  }

  lemma SameLength(s: seq<real>, t: seq<real>)
    requires multiset(s) == multiset(t)
    ensures |s| == |t|
  {
    assert |s| == |multiset(s)| == |multiset(t)| == |t|;
  }

  /** There is only one sorted order: any other correct sort gives the same, and so does
      any other arrangement of the samples. */
  lemma {:induction false} OneSortedOrder(s: seq<real>, t: seq<real>)
    requires IsSorted(s) && IsSorted(t) && multiset(s) == multiset(t)
    ensures s == t
  {
    SameLength(s, t);
    if s != [] {
      SameHead(s, t);
      TailCounts(s);
      TailCounts(t);
      OneSortedOrder(s[1..], t[1..]);
      assert s == [s[0]] + s[1..] && t == [t[0]] + t[1..];
    }
  }

  lemma SortingForgetsOrder(s: seq<real>, t: seq<real>)
    requires multiset(s) == multiset(t)
    ensures Sorted(s) == Sorted(t)
  {
    SortedSorts(s);
    SortedSorts(t);
    OneSortedOrder(Sorted(s), Sorted(t));
  }

  // ---- The routines.

  /** Rounds up. */
  function Ceiling(x: real): int {
    -((-x).Floor)
  }

  /** The engine's routine, over samples already sorted. Fractions outside [0, 1] would
      index out of range. */
  method EnginePercentile(sorted: seq<real>, p: real) returns (r: real)
    requires |sorted| > 1 ==> Fraction(p)
    ensures sorted == [] ==> r == 0.0
    ensures |sorted| == 1 ==> r == sorted[0]
    ensures sorted != [] && Fraction(p) ==> r == Percentile(sorted, p)
    ensures Fraction(p) ==> OnLines(r, sorted, p * (|sorted| as real - 1.0))
  {
    if sorted != [] && Fraction(p) {
      PercentileOnLines(sorted, p);
    }
    if |sorted| == 0 {
      return 0.0;
    }
    if |sorted| == 1 {
      return sorted[0];
    }
    PositionInReach(sorted, p);
    var index := p * (|sorted| as real - 1.0);
    var lower, upper := index.Floor, Ceiling(index);
    if lower == upper {
      AtRank(sorted, index, lower);
      return sorted[lower];
    }
    var weight := index - lower as real;
    r := Blend(sorted[lower], sorted[upper], weight);
    BlendIsLine(sorted[lower], sorted[upper], weight);
  }

  lemma AtRank(s: seq<real>, x: real, k: nat)
    requires InReach(s, x) && x == k as real
    ensures Interpolate(s, x) == s[k]
  {
    if k + 1 < |s| {
      NoWeight(s[k], s[k + 1], x - k as real);
    }
  }

  lemma NoWeight(a: real, b: real, w: real)
    requires w == 0.0
    ensures Line(a, b, w) == a
  {
  }

  /** The same point, written with both weights. */
  function Blend(a: real, b: real, w: real): real {
    a * (1.0 - w) + b * w
  }

  lemma BlendIsLine(a: real, b: real, w: real)
    ensures Blend(a, b, w) == Line(a, b, w)
  {
  }

  /** The exporter's routine: it cuts off instead of rounding down, and tests for the end. */
  method BackendPercentile(sorted: seq<real>, p: real) returns (r: real)
    requires sorted != [] && Fraction(p)
    ensures r == Percentile(sorted, p) && OnLines(r, sorted, p * (|sorted| as real - 1.0))
  {
    PercentileOnLines(sorted, p);
    if |sorted| == 1 {
      return sorted[0];
    }
    PositionInReach(sorted, p);
    var index := p * (|sorted| as real - 1.0);
    var lower := index.Floor;
    var upper := lower + 1;
    if upper >= |sorted| {
      return sorted[|sorted| - 1];
    }
    var weight := index - lower as real;
    r := Line(sorted[lower], sorted[upper], weight);
  }

  predicate Percent(p: real) {
    0.0 <= p <= 100.0
  }

  /** The metrics package's routine: percentages, of which those out of range are left out. */
  method CalculatePercentiles(values: seq<real>, percentages: seq<real>) returns (result: map<real, real>)
    ensures values == [] ==> result == map[]
    ensures values != [] ==> forall p :: p in result <==> p in percentages && 0.0 <= p <= 100.0
    ensures values != [] ==>
              Sorted(values) != [] &&
              forall p :: p in result ==> Fraction(p / 100.0) && result[p] == Percentile(Sorted(values), p / 100.0)
  {
    if |values| == 0 {
      return map[];
    }
    var sorted := Sorted(values);
    SortedSorts(values);
    result := map[];
    for i := 0 to |percentages|
      invariant forall p :: p in result <==> p in percentages[..i] && Percent(p)
      invariant forall p :: p in result ==> Percent(p) && result[p] == Percentile(sorted, p / 100.0)
    {
      var p := percentages[i];
      assert percentages[..i + 1] == percentages[..i] + [p];
      if Percent(p) {
        var value := EnginePercentile(sorted, p / 100.0);
        result := result[p := value];
      }
    }
    assert percentages[..|percentages|] == percentages;
  }

  // ---- The exporter's summary.

  datatype Summary = Summary(avg: real, p50: real, p95: real, p99: real, p999: real, min: real, max: real)

  function ToReals(durations: seq<int>): (r: seq<real>)
    ensures |r| == |durations|
  {
    seq(|durations|, i requires 0 <= i < |durations| => durations[i] as real)
  }

  function InMs(ns: seq<real>): (r: seq<real>)
    ensures |r| == |ns|
  {
    seq(|ns|, i requires 0 <= i < |ns| => ns[i] / 1000000.0)
  }

  lemma InMsSorted(ns: seq<real>)
    requires IsSorted(ns)
    ensures IsSorted(InMs(ns))
  {
  }

  /** The milliseconds of the sorted durations. */
  function SortedMs(durations: seq<int>): (ms: seq<real>)
    ensures |ms| == |durations|
  {
    SortedSorts(ToReals(durations));
    InMs(Sorted(ToReals(durations)))
  }

  lemma SortedMsSorts(durations: seq<int>)
    ensures IsSorted(SortedMs(durations))
  {
    SortedSorts(ToReals(durations));
    InMsSorted(Sorted(ToReals(durations)));
  }

  /** Every duration lies between the first and the last sorted one, which are
      durations themselves. */
  lemma Extremes(durations: seq<int>) returns (low: int, high: int)
    requires durations != []
    ensures forall i :: 0 <= i < |durations| ==> low <= durations[i] <= high
    ensures SortedMs(durations)[0] == low as real / 1000000.0
    ensures SortedMs(durations)[|durations| - 1] == high as real / 1000000.0
  {
    var ns := ToReals(durations);
    var sorted := Sorted(ns);
    SortedSorts(ns);
    var i := Find(sorted, ns, 0);
    var j := Find(sorted, ns, |ns| - 1);
    low, high := durations[i], durations[j];
    forall k | 0 <= k < |durations|
      ensures low <= durations[k] <= high
    {
      var m := Find(ns, sorted, k);
    }
  }

  lemma Find(s: seq<real>, t: seq<real>, k: nat) returns (i: nat)
    requires multiset(s) == multiset(t) && k < |s|
    ensures i < |t| && t[i] == s[k]
  {
    assert s[k] in multiset(t);
    i :| 0 <= i < |t| && t[i] == s[k];
  }

  /** Division as Go does it, towards zero. */
  function Quotient(sum: int, n: int): int
    requires n > 0
  {
    if sum >= 0 then sum / n else -(-sum / n)
  }

  /** Towards zero: no larger than the exact quotient in size, and by less than one. */
  lemma QuotientExactly(sum: int, n: int)
    requires n > 0
    ensures var q := Quotient(sum, n);
            if sum >= 0 then q * n <= sum < (q + 1) * n else (q - 1) * n < sum <= q * n
  {
    var half := if sum >= 0 then sum else -sum;
    assert (half / n) * n <= half < (half / n + 1) * n;
  }

  lemma QuotientBetween(sum: int, n: int, low: int, high: int)
    requires n > 0 && low * n <= sum <= high * n
    ensures low <= Quotient(sum, n) <= high
  {
    if sum >= 0 {
      FloorBetween(sum, n, low, high);
    } else {
      FloorBetween(-sum, n, -high, -low);
    }
  }

  lemma FloorBetween(sum: int, n: int, low: int, high: int)
    requires n > 0 && sum >= 0 && low * n <= sum <= high * n
    ensures low <= sum / n <= high
  {
    var q := sum / n;
    assert q * n <= sum < (q + 1) * n;
    Smaller(low, q + 1, n);
    Smaller(q, high + 1, n);
  }

  function SumOf(durations: seq<int>, n: nat): int
    requires n <= |durations|
  {
    if n == 0 then 0 else SumOf(durations, n - 1) + durations[n - 1]
  }

  lemma {:induction false} SumBetween(durations: seq<int>, n: nat, low: int, high: int)
    requires n <= |durations| && forall i :: 0 <= i < |durations| ==> low <= durations[i] <= high
    ensures low * n <= SumOf(durations, n) <= high * n
  {
    if n > 0 {
      SumBetween(durations, n - 1, low, high);
      assert low * n == low * (n - 1) + low && high * n == high * (n - 1) + high;
    }
  }

  method Average(durations: seq<int>, ghost low: int, ghost high: int) returns (avg: int)
    requires durations != [] && forall i :: 0 <= i < |durations| ==> low <= durations[i] <= high
    ensures avg == Quotient(SumOf(durations, |durations|), |durations|)
    ensures low <= avg <= high
  {
    var sum := 0;
    for i := 0 to |durations|
      invariant sum == SumOf(durations, i)
    {
      sum := sum + durations[i];
    }
    SumBetween(durations, |durations|, low, high);
    QuotientBetween(sum, |durations|, low, high);
    avg := Quotient(sum, |durations|);
  }

  /** A percentile of the milliseconds is that of the nanoseconds, a million times smaller. */
  lemma InNanoseconds(durations: seq<int>, p: real)
    requires durations != [] && Fraction(p)
    ensures var ns := Sorted(ToReals(durations));
            |ns| == |durations| && InUnit(Percentile(ns, p), 1000000.0, Percentile(SortedMs(durations), p))
  {
    SortedSorts(ToReals(durations));
    PercentileScales(SortedMs(durations), Sorted(ToReals(durations)), 1000000.0, p);
  }

  /** In milliseconds. The percentiles are those of the sorted durations, and come out in
      order between the extremes; so does the average, although it is cut off to whole
      nanoseconds. */
  method CalculateLatencyPercentiles(durations: seq<int>) returns (s: Summary)
    ensures durations == [] ==> s == Summary(0.0, 0.0, 0.0, 0.0, 0.0, 0.0, 0.0)
    ensures durations != [] ==>
              var ms := SortedMs(durations);
              ms != [] && s.p50 == Percentile(ms, 0.5) && s.p95 == Percentile(ms, 0.95)
              && s.p99 == Percentile(ms, 0.99) && s.p999 == Percentile(ms, 0.999)
              && s.min == ms[0] && s.max == ms[|ms| - 1]
              && s.avg * 1000000.0 == Quotient(SumOf(durations, |durations|), |durations|) as real
    ensures durations != [] ==>
              var ns := Sorted(ToReals(durations));
              && ns != []
              && InUnit(Percentile(ns, 0.5), 1000000.0, s.p50) && InUnit(Percentile(ns, 0.95), 1000000.0, s.p95)
              && InUnit(Percentile(ns, 0.99), 1000000.0, s.p99) && InUnit(Percentile(ns, 0.999), 1000000.0, s.p999)
    ensures s.min <= s.p50 <= s.p95 <= s.p99 <= s.p999 <= s.max
    ensures s.min <= s.avg <= s.max
  {
    if |durations| == 0 {
      return Summary(0.0, 0.0, 0.0, 0.0, 0.0, 0.0, 0.0);
    }
    var ms := SortedMs(durations);
    SortedMsSorts(durations);
    ghost var low, high := Extremes(durations);
    var avg := Average(durations, low, high);
    var p50 := BackendPercentile(ms, 0.5);
    var p95 := BackendPercentile(ms, 0.95);
    var p99 := BackendPercentile(ms, 0.99);
    var p999 := BackendPercentile(ms, 0.999);
    PercentileBetween(ms, 0.5);
    PercentileMonotone(ms, 0.5, 0.95);
    PercentileMonotone(ms, 0.95, 0.99);
    PercentileMonotone(ms, 0.99, 0.999);
    PercentileBetween(ms, 0.999);
    InNanoseconds(durations, 0.5);
    InNanoseconds(durations, 0.95);
    InNanoseconds(durations, 0.99);
    InNanoseconds(durations, 0.999);
    s := Summary(avg as real / 1000000.0, p50, p95, p99, p999, ms[0], ms[|ms| - 1]);
  }
}
