/** Cutting a progressive run into regions of equal scaling behaviour. */
module Regions {

  import opened Options

  // ---- Growth rates, with what floating point makes of a division by zero.

  datatype Growth = Finite(rate: real) | Infinite(up: bool) | NoNumber

  function Divide(a: real, b: real): Growth {
    if b != 0.0 then Finite(a / b)
    else if a > 0.0 then Infinite(true)
    else if a < 0.0 then Infinite(false)
    else NoNumber
  }

  /** Every comparison with no number is false. */
  predicate Less(g: Growth, h: Growth) {
    match (g, h)
    case (Finite(a), Finite(b)) => a < b
    case (Infinite(up), Finite(_)) => !up
    case (Finite(_), Infinite(up)) => up
    case (Infinite(a), Infinite(b)) => !a && b
    case _ => false
  }

  predicate Above(g: Growth, bound: real) {
    Less(Finite(bound), g)
  }

  predicate Below(g: Growth, bound: real) {
    Less(g, Finite(bound))
  }

  function Scale(g: Growth, factor: real): Growth
    requires factor > 0.0
  {
    if g.Finite? then Finite(g.rate * factor) else g
  }

  /** Differences of infinities are infinite, or no number; never small. */
  predicate Near(g: Growth, h: Growth, distance: real) {
    g.Finite? && h.Finite? && (if g.rate > h.rate then g.rate - h.rate else h.rate - g.rate) < distance
  }

  // ---- Labels.

  datatype Label = LinearScaling | DiminishingReturns | Saturation | Degradation | Transitional

  function Classify(growth1: Growth, growth2: Growth): Label {
    if Above(growth1, 0.1) && Above(growth2, 0.1) && Near(growth1, growth2, 0.05) then LinearScaling
    else if Above(growth1, 0.05) && Less(growth2, Scale(growth1, 0.7)) then DiminishingReturns
    else if Below(growth1, 0.02) && Below(growth2, 0.02) then Saturation
    else if Below(growth1, 0.0) || Below(growth2, 0.0) then Degradation
    else Transitional
  }

  function Confidence(kind: Label): real {
    match kind
    case LinearScaling => 0.8
    case DiminishingReturns => 0.7
    case Saturation => 0.9
    case Degradation => 0.8
    case Transitional => 0.5
  }

  /** Throughput that keeps falling is saturation. Degradation is only a fall before
      clear growth, or a fall after modest growth. */
  lemma DegradationExactly(a: real, b: real)
    ensures Classify(Finite(a), Finite(b)) == Degradation <==> (a < 0.0 && b >= 0.02) || (0.02 <= a <= 0.05 && b < 0.0)
    ensures a < 0.0 && b < 0.0 ==> Classify(Finite(a), Finite(b)) == Saturation
  {
  }

  /** The five labels by the two growth rates: each pair gets exactly one. */
  lemma ClassifyExactly(a: real, b: real)
    ensures var kind := Classify(Finite(a), Finite(b));
            var steady := a > 0.1 && b > 0.1 && -0.05 < a - b < 0.05;
            && (kind == LinearScaling <==> steady)
            && (kind == DiminishingReturns <==> a > 0.05 && b < 0.7 * a && !steady)
            && (kind == Saturation <==> a < 0.02 && b < 0.02)
            && (kind == Degradation <==> (a < 0.0 && b >= 0.02) || (0.02 <= a <= 0.05 && b < 0.0))
  {
  }

  /** Band `i`'s label, from its neighbours. Bands are counted from zero here. */
  function LabelAt(tps: seq<real>, i: nat): Label
    requires 0 < i < |tps| - 1
  {
    Classify(Divide(tps[i] - tps[i - 1], tps[i - 1]), Divide(tps[i + 1] - tps[i], tps[i]))
  }

  lemma Times(x: real, y: real, m: real)
    requires m > 0.0
    ensures x < y <==> x * m < y * m
  {
    if x < y {
      assert (y - x) * m > 0.0;
    } else {
      assert (x - y) * m >= 0.0;
    }
  }

  /** `g` is the growth from `p` to `c`. */
  ghost predicate IsGrowth(g: real, p: real, c: real) {
    g * p == c - p
  }

  lemma GrowthAgainst(g: real, p: real, c: real, bound: real)
    requires p > 0.0 && IsGrowth(g, p, c)
    ensures g > bound <==> c > p + bound * p
    ensures g < bound <==> c < p + bound * p
  {
    Times(g, bound, p);
    Times(bound, g, p);
  }

  /** How the two growths compare, in throughput. */
  lemma GrowthsCompared(a: real, b: real, p: real, c: real, n: real, pc: real, cc: real, np: real)
    requires p > 0.0 && c > 0.0 && IsGrowth(a, p, c) && IsGrowth(b, c, n)
    requires pc == p * c && cc == c * c && np == n * p
    ensures pc > 0.0
    ensures -0.05 < a - b < 0.05 <==> -0.05 * pc < cc - np < 0.05 * pc
    ensures b < 0.7 * a <==> np < 0.7 * cc + 0.3 * pc
  {
    GrowthProducts(a, b, p, c, n, pc, cc, np);
    ProductsCompared(a, b, pc, cc, np);
  }

  lemma ProductsCompared(a: real, b: real, pc: real, cc: real, np: real)
    requires pc > 0.0 && a * pc == cc - pc && b * pc == np - pc
    ensures -0.05 < a - b < 0.05 <==> -0.05 * pc < cc - np < 0.05 * pc
    ensures b < 0.7 * a <==> np < 0.7 * cc + 0.3 * pc
  {
    Differ(a, b, pc, cc - pc, np - pc);
    Share(a, b, pc, cc - pc, np - pc);
  }

  lemma Share(a: real, b: real, m: real, am: real, bm: real)
    requires m > 0.0 && a * m == am && b * m == bm
    ensures b < 0.7 * a <==> bm < 0.7 * am
  {
    var x := 0.7 * a;
    assert x * m == 0.7 * am;
    Times(b, x, m);
  }

  lemma GrowthProducts(a: real, b: real, p: real, c: real, n: real, pc: real, cc: real, np: real)
    requires p > 0.0 && c > 0.0 && IsGrowth(a, p, c) && IsGrowth(b, c, n)
    requires pc == p * c && cc == c * c && np == n * p
    ensures pc > 0.0 && a * pc == cc - pc && b * pc == np - pc
  {
    assert a * pc == (a * p) * c;
    assert b * pc == (b * c) * p;
  }

  lemma Differ(a: real, b: real, m: real, am: real, bm: real)
    requires m > 0.0 && a * m == am && b * m == bm
    ensures -0.05 < a - b < 0.05 <==> -0.05 * m < am - bm < 0.05 * m
  {
    assert (a - b) * m == am - bm;
    Scaled(a - b, am - bm, m, 0.05);
  }

  lemma Scaled(d: real, product: real, m: real, bound: real)
    requires m > 0.0 && product == d * m
    ensures -bound < d < bound <==> -bound * m < product < bound * m
  {
    Times(d, bound, m);
    Times(-bound, d, m);
  }

  /** The labels of bands that all have throughput, without a quotient: `p`, `c`, `n` are the
      previous, the current and the next band's. */
  ghost predicate LabelTells(kind: Label, p: real, c: real, n: real) {
    var steady := c > 1.1 * p && n > 1.1 * c && -0.05 * (p * c) < c * c - n * p < 0.05 * (p * c);
    && (kind == LinearScaling <==> steady)
    && (kind == DiminishingReturns <==> c > 1.05 * p && n * p < 0.7 * (c * c) + 0.3 * (p * c) && !steady)
    && (kind == Saturation <==> c < 1.02 * p && n < 1.02 * c)
    && (kind == Degradation <==> (c < p && n >= 1.02 * c) || (1.02 * p <= c <= 1.05 * p && n < c))
  }

  lemma GrowthsTell(a: real, b: real, p: real, c: real, n: real)
    requires p > 0.0 && c > 0.0 && IsGrowth(a, p, c) && IsGrowth(b, c, n)
    ensures LabelTells(Classify(Finite(a), Finite(b)), p, c, n)
  {
    ClassifyExactly(a, b);
    GrowthsCompared(a, b, p, c, n, p * c, c * c, n * p);
    GrowthAgainst(a, p, c, 0.1);
    GrowthAgainst(b, c, n, 0.1);
    GrowthAgainst(a, p, c, 0.05);
    GrowthAgainst(a, p, c, 0.02);
    GrowthAgainst(b, c, n, 0.02);
    GrowthAgainst(a, p, c, 0.0);
    GrowthAgainst(b, c, n, 0.0);
  }

  /** Every band's label, whatever the throughputs: without any before it, a band with some
      has diminishing returns and one with none is transitional; one that falls to none is
      degradation. */
  lemma LabelExactly(tps: seq<real>, i: nat)
    requires 0 < i < |tps| - 1 && tps[i - 1] >= 0.0 && tps[i] >= 0.0 && tps[i + 1] >= 0.0
    ensures var p, c, n := tps[i - 1], tps[i], tps[i + 1];
            if p > 0.0 && c > 0.0 then LabelTells(LabelAt(tps, i), p, c, n)
            else LabelAt(tps, i) == if c > 0.0 then DiminishingReturns else if p > 0.0 then Degradation else Transitional
  {
    var p, c, n := tps[i - 1], tps[i], tps[i + 1];
    if p > 0.0 && c > 0.0 {
      var a, b := (c - p) / p, (n - c) / c;
      assert IsGrowth(a, p, c) && IsGrowth(b, c, n);
      GrowthsTell(a, b, p, c, n);
    } else if p > 0.0 {
      assert (c - p) / p == -1.0;
    }
  }

  /** A band without throughput, before another, is transitional if the one before it had
      none either, and degradation if it had some. */
  lemma SilentBand(tps: seq<real>, i: nat)
    requires 0 < i < |tps| - 1 && tps[i] == tps[i + 1] == 0.0
    ensures tps[i - 1] == 0.0 ==> LabelAt(tps, i) == Transitional
    ensures tps[i - 1] > 0.0 ==> LabelAt(tps, i) == Degradation
  {
    if tps[i - 1] > 0.0 {
      assert (tps[i] - tps[i - 1]) / tps[i - 1] == -1.0;
    }
  }

  /** All bands of a silent stretch that have silent neighbours are transitional. */
  lemma SilenceIsTransitional(tps: seq<real>, from: nat, to: nat)
    requires from < to <= |tps| && forall i :: from <= i < to ==> tps[i] == 0.0
    ensures forall i :: from < i < to - 1 ==> LabelAt(tps, i) == Transitional
  {
    forall i | from < i < to - 1
      ensures LabelAt(tps, i) == Transitional
    {
      SilentBand(tps, i);
    }
  }

  /** The labels of bands 2 to `n`, by their numbers; the last takes its neighbour's. */
  function Labels(tps: seq<real>): (labels: seq<Label>)
    requires |tps| >= 3
    ensures |labels| == |tps| - 1
  {
    seq(|tps| - 1, k requires 0 <= k < |tps| - 1 => LabelAt(tps, if k + 2 < |tps| then k + 1 else k))
  }

  // ---- Regions.

  datatype Region = Region(start: int, end: int, kind: Label, confidence: real)

  /** The next region begins where one ends. */
  ghost predicate Contiguous(regions: seq<Region>) {
    forall k :: 0 < k < |regions| ==> regions[k].start == regions[k - 1].end + 1
  }

  ghost predicate NeighboursDiffer(regions: seq<Region>) {
    forall k :: 0 < k < |regions| ==> regions[k].kind != regions[k - 1].kind
  }

  /** A region has bands, and each of them has the region's label. */
  ghost predicate Uniform(r: Region, labels: seq<Label>) {
    && 2 <= r.start <= r.end <= |labels| + 1
    && forall j :: r.start - 2 <= j <= r.end - 2 ==> labels[j] == r.kind
  }

  /** The regions cut bands 2 to `n` into maximal stretches of one label. */
  ghost predicate Covers(regions: seq<Region>, labels: seq<Label>) {
    && regions != [] && regions[0].start == 2 && regions[|regions| - 1].end == |labels| + 1
    && Contiguous(regions) && NeighboursDiffer(regions)
    && forall k :: 0 <= k < |regions| ==> Uniform(regions[k], labels)
  }

  /** Closed by a later region, a region reports that region's confidence, not its own. */
  ghost predicate Borrows(regions: seq<Region>) {
    forall k :: 0 < k < |regions| ==> regions[k - 1].confidence == Confidence(regions[k].kind)
  }

  /** What all regions but the last report, and the last. */
  ghost predicate Reports(regions: seq<Region>) {
    regions != [] && Borrows(regions) && regions[|regions| - 1].confidence == 0.7
  }

  /** A region reports the confidence of its own label exactly when it is the last and has
      diminishing returns, or lies between linear scaling and degradation, whose
      confidences are the same. */
  lemma OwnConfidenceExactly(regions: seq<Region>, k: nat)
    requires Reports(regions) && NeighboursDiffer(regions) && k < |regions|
    ensures regions[k].confidence == Confidence(regions[k].kind) <==>
            if k + 1 == |regions| then regions[k].kind == DiminishingReturns
            else {regions[k].kind, regions[k + 1].kind} == {LinearScaling, Degradation}
  {
    if k + 1 < |regions| {
      assert regions[k + 1].kind != regions[k].kind;
      assert regions[k].confidence == Confidence(regions[k + 1].kind);
      SameConfidence(regions[k].kind, regions[k + 1].kind);
    }
  }

  lemma SameConfidence(a: Label, b: Label)
    requires a != b
    ensures Confidence(a) == Confidence(b) <==> {a, b} == {LinearScaling, Degradation}
  {
    assert a in {a, b} && b in {a, b};
  }

  ghost predicate SameCut(r: seq<Region>, s: seq<Region>, k: nat) {
    k < |r| && k < |s| && r[k].start == s[k].start && r[k].end == s[k].end && r[k].kind == s[k].kind
  }

  lemma KindsChange(s: seq<Region>, labels: seq<Label>, k: nat)
    requires Covers(s, labels) && k + 1 < |s|
    ensures 0 <= s[k].end - 2 && s[k].end - 1 < |labels| && labels[s[k].end - 1] != labels[s[k].end - 2]
  {
    assert Uniform(s[k], labels) && Uniform(s[k + 1], labels);
    assert labels[s[k].end - 2] == s[k].kind && labels[s[k + 1].start - 2] == s[k + 1].kind;
  }

  lemma KindsStay(r: Region, labels: seq<Label>, e: int)
    requires Uniform(r, labels) && r.start <= e < r.end
    ensures labels[e - 1] == labels[e - 2]
  {
  }

  /** Stretches that start together end together. */
  lemma SameEnd(r: seq<Region>, s: seq<Region>, labels: seq<Label>, k: nat)
    requires Covers(r, labels) && Covers(s, labels) && k < |r| && k < |s| && r[k].start == s[k].start
    ensures r[k].end <= s[k].end
  {
    assert Uniform(r[k], labels) && Uniform(s[k], labels);
    if r[k].end > s[k].end && k + 1 < |s| {
      KindsChange(s, labels, k);
      KindsStay(r[k], labels, s[k].end);
    }
  }

  /** A region ends before the last band exactly when another follows. */
  lemma InnerEnd(s: seq<Region>, k: nat, labels: seq<Label>)
    requires Covers(s, labels) && k < |s|
    ensures k + 1 < |s| <==> s[k].end < |labels| + 1
  {
    if k + 1 < |s| {
      assert Uniform(s[k + 1], labels);
    }
  }

  lemma {:induction false} SameRegion(r: seq<Region>, s: seq<Region>, labels: seq<Label>, k: nat)
    requires Covers(r, labels) && Covers(s, labels) && k < |r|
    ensures SameCut(r, s, k)
  {
    if k > 0 {
      SameRegion(r, s, labels, k - 1);
      InnerEnd(r, k - 1, labels);
      InnerEnd(s, k - 1, labels);
    }
    SameEnd(r, s, labels, k);
    SameEnd(s, r, labels, k);
    assert Uniform(r[k], labels) && Uniform(s[k], labels);
    assert labels[r[k].start - 2] == r[k].kind == s[k].kind;
  }

  /** There is only one such cut: the regions say no more and no less than the labels. */
  lemma OneCut(r: seq<Region>, s: seq<Region>, labels: seq<Label>)
    requires Covers(r, labels) && Covers(s, labels)
    ensures |r| == |s| && forall k :: 0 <= k < |r| ==> SameCut(r, s, k)
  {
    SameRegion(r, s, labels, |r| - 1);
    SameRegion(s, r, labels, |s| - 1);
    forall k | 0 <= k < |r|
      ensures SameCut(r, s, k)
    {
      SameRegion(r, s, labels, k);
    }
  }

  /** The regions closed so far, and the open one from `start` on, up to band `last`. */
  ghost predicate CoversUpTo(regions: seq<Region>, kind: Label, start: int, labels: seq<Label>, last: int) {
    && 2 <= start <= last <= |labels| + 1
    && Covers(regions + [Region(start, last, kind, 0.0)], labels[..last - 1])
    && Borrows(regions + [Region(start, last, kind, 0.0)])
  }

  lemma FirstBand(kind: Label, labels: seq<Label>)
    requires labels != [] && labels[0] == kind
    ensures CoversUpTo([], kind, 2, labels, 2)
  {
    assert labels[..1] == [kind];
  }

  /** The next band has the open region's label. */
  lemma SameLabel(regions: seq<Region>, kind: Label, start: int, labels: seq<Label>, last: int)
    requires CoversUpTo(regions, kind, start, labels, last) && last - 1 < |labels| && labels[last - 1] == kind
    ensures CoversUpTo(regions, kind, start, labels, last + 1)
  {
    var shorter, longer := regions + [Region(start, last, kind, 0.0)], regions + [Region(start, last + 1, kind, 0.0)];
    assert forall k :: 0 <= k < |regions| ==> longer[k] == shorter[k];
    Renamed(shorter, longer, labels[..last - 1], labels[..last]);
  }

  /** The last region may report any confidence, and end on more bands of its label. */
  lemma Renamed(r: seq<Region>, s: seq<Region>, labels: seq<Label>, more: seq<Label>)
    requires Covers(r, labels) && |s| == |r| && labels <= more
    requires forall k :: 0 <= k < |r| - 1 ==> s[k] == r[k]
    requires s[|s| - 1].start == r[|r| - 1].start && s[|s| - 1].kind == r[|r| - 1].kind
    requires s[|s| - 1].end == |more| + 1
    requires forall i :: |labels| <= i < |more| ==> more[i] == s[|s| - 1].kind
    ensures Covers(s, more)
    ensures Borrows(r) ==> Borrows(s)
  {
    forall k | 0 <= k < |s|
      ensures Uniform(s[k], more)
    {
      assert Uniform(r[k], labels);
    }
  }

  /** The next band has another label: the open region is closed, with that label's
      confidence. */
  lemma OtherLabel(regions: seq<Region>, kind: Label, start: int, labels: seq<Label>, last: int, next: Label)
    requires CoversUpTo(regions, kind, start, labels, last) && last - 1 < |labels| && labels[last - 1] == next != kind
    ensures CoversUpTo(regions + [Region(start, last, kind, Confidence(next))], next, last + 1, labels, last + 1)
  {
    var open := regions + [Region(start, last, kind, 0.0)];
    var closed := regions + [Region(start, last, kind, Confidence(next))];
    Renamed(open, closed, labels[..last - 1], labels[..last - 1]);
    Appended(closed, Region(last + 1, last + 1, next, 0.0), labels[..last - 1], labels[..last]);
  }

  lemma Appended(r: seq<Region>, region: Region, labels: seq<Label>, more: seq<Label>)
    requires Covers(r, labels) && Borrows(r) && more == labels + [region.kind]
    requires region.start == region.end == |more| + 1
    requires region.kind != r[|r| - 1].kind && r[|r| - 1].confidence == Confidence(region.kind)
    ensures Covers(r + [region], more) && Borrows(r + [region])
  {
    var s := r + [region];
    forall k | 0 <= k < |s|
      ensures Uniform(s[k], more)
    {
      if k < |r| {
        assert Uniform(r[k], labels);
      }
    }
  }

  /** With fewer than three bands nothing is classified. Otherwise the regions are the
      one cut of bands 2 to `n`; all but the last report the next region's confidence. */
  method ClassifyRegions(tps: seq<real>) returns (regions: seq<Region>)
    ensures |tps| < 3 ==> regions == []
    ensures |tps| >= 3 ==> Covers(regions, Labels(tps)) && Reports(regions)
  {
    regions := [];
    if |tps| < 3 {
      return;
    }
    ghost var labels := Labels(tps);
    var current: Option<Label> := None;
    var start := 1;
    for i := 1 to |tps| - 1
      invariant if i == 1 then current == None && regions == []
                else current.Some? && CoversUpTo(regions, current.value, start, labels, i)
    {
      var kind := LabelAt(tps, i);
      assert labels[i - 1] == kind;
      if current != Some(kind) {
        if current.Some? {
          OtherLabel(regions, current.value, start, labels, i, kind);
          regions := regions + [Region(start, i, current.value, Confidence(kind))];
        } else {
          FirstBand(kind, labels);
        }
        current, start := Some(kind), i + 1;
      } else {
        SameLabel(regions, kind, start, labels, i);
      }
    }
    var last := Region(start, |tps|, current.value, 0.7);
    ghost var open := regions + [Region(start, |tps| - 1, current.value, 0.0)];
    assert labels[|tps| - 2] == labels[|tps| - 3] == LabelAt(tps, |tps| - 2);
    LastLabel(open, labels, |tps| - 1);
    Renamed(open, regions + [last], labels[..|tps| - 2], labels);
    regions := regions + [last];
  }

  lemma LastLabel(r: seq<Region>, labels: seq<Label>, last: int)
    requires 2 <= last <= |labels| + 1 && Covers(r, labels[..last - 1])
    ensures labels[last - 2] == r[|r| - 1].kind
  {
    assert Uniform(r[|r| - 1], labels[..last - 1]);
  }

  // ---- A worked example with all five labels.

  function ExampleRun(): seq<real> {
    [100.0, 150.0, 225.0, 230.0, 231.0, 232.0, 200.0, 240.0]
  }

  function ExampleRegions(): seq<Region> {
    [Region(2, 2, LinearScaling, 0.7), Region(3, 3, DiminishingReturns, 0.5), Region(4, 4, Transitional, 0.9),
     Region(5, 6, Saturation, 0.8), Region(7, 8, Degradation, 0.7)]
  }

  function ExampleKinds(): seq<Label> {
    [LinearScaling, DiminishingReturns, Transitional, Saturation, Saturation, Degradation, Degradation]
  }

  /** A triple of throughputs has one label. */
  lemma OneLabel(tps: seq<real>, i: nat, p: real, c: real, n: real, kind: Label)
    requires 0 < i < |tps| - 1 && tps[i - 1] == p > 0.0 && tps[i] == c > 0.0 && tps[i + 1] == n >= 0.0
    requires LabelTells(kind, p, c, n)
    ensures LabelAt(tps, i) == kind
  {
    LabelExactly(tps, i);
  }

  lemma ExampleLabels()
    ensures Labels(ExampleRun()) == ExampleKinds()
  {
    var run := ExampleRun();
    OneLabel(run, 1, 100.0, 150.0, 225.0, LinearScaling);
    OneLabel(run, 2, 150.0, 225.0, 230.0, DiminishingReturns);
    OneLabel(run, 3, 225.0, 230.0, 231.0, Transitional);
    OneLabel(run, 4, 230.0, 231.0, 232.0, Saturation);
    OneLabel(run, 5, 231.0, 232.0, 200.0, Saturation);
    OneLabel(run, 6, 232.0, 200.0, 240.0, Degradation);
  }

  lemma ExampleCut()
    ensures Covers(ExampleRegions(), ExampleKinds())
  {
    var regions, labels := ExampleRegions(), ExampleKinds();
    assert Uniform(regions[0], labels) && Uniform(regions[1], labels) && Uniform(regions[2], labels);
    assert Uniform(regions[3], labels) && Uniform(regions[4], labels);
  }

  /** Each region but the last reports the confidence of the next one's label. */
  method WorkedExample() returns (regions: seq<Region>)
    ensures regions == ExampleRegions()
  {
    regions := ClassifyRegions(ExampleRun());
    ExampleLabels();
    ExampleCut();
    ghost var expected := ExampleRegions();
    OneCut(regions, expected, ExampleKinds());
    forall k | 0 <= k < |regions|
      ensures regions[k] == expected[k]
    {
      assert SameCut(regions, expected, k);
      if k + 1 < |regions| {
        assert regions[(k + 1) - 1].confidence == Confidence(regions[k + 1].kind) && SameCut(regions, expected, k + 1);
      }
    }
  }
}
