/** The regression and correlation loops, in exact reals. A quotient by zero, which
    floating point turns into an infinity or no number, is `None`. */
module Regression {

  import opened Options
  import opened Sums
  import opened LeastSquares

  datatype Fit = Fit(a: real, b: real, rSquared: real)

  /** What `predict` leaves of `y`. */
  ghost function Misses(x: Series, y: Series, predict: real -> real): Series
    requires |x| == |y|
  {
    seq(|x|, i requires 0 <= i < |x| => y[i] - predict(x[i]))
  }

  ghost predicate IsFit(x: Series, y: Series, fit: Fit)
    requires |x| == |y|
  {
    IsBest(x, y, fit.a, fit.b) && IsRSquared(y, Residuals(x, y, fit.a, fit.b), fit.rSquared)
  }

  // ---- From the raw sums to the best line.

  /** The slope and intercept quotients, cleared of division. */
  ghost predicate IsRawFit(a: real, b: real, n: real, sx: real, sy: real, sxy: real, sxx: real) {
    a * (n * sxx - sx * sx) == n * sxy - sx * sy && b * n == sy - a * sx
  }

  lemma RawFitAlgebra(a: real, b: real, n: real, sx: real, sy: real, xy: real, xx: real,
                      mx: real, my: real, cxy: real, cxx: real)
    requires n > 0.0 && Averages(mx, n, sx) && Averages(my, n, sy)
    requires IsRawForm(n, cxy, xy, sx, sy) && IsRawForm(n, cxx, xx, sx, sx)
    requires IsRawFit(a, b, n, sx, sy, xy, xx)
    ensures IsSlope(a, cxx, cxy) && IsHeight(b, my, a, mx)
  {
    assert (a * cxx) * n == n * cxy;
    Cancel(a * cxx, cxy, n);
    var t := a * mx;
    assert (my - t) * n == sy - a * sx by {
      assert t * n == a * sx;
    }
    Cancel(b, my - t, n);
  }

  lemma RawFit(x: Series, y: Series, a: real, b: real)
    requires |x| == |y| > 0
    requires IsRawFit(a, b, |x| as real, Total(x), Total(y), Dot(x, y, |x|), Dot(x, x, |x|))
    ensures IsBest(x, y, a, b)
  {
    var mx := TheMean(x);
    var my := TheMean(y);
    RawForm(x, mx, y, my);
    RawForm(x, mx, x, mx);
    RawFitAlgebra(a, b, |x| as real, Total(x), Total(y), Dot(x, y, |x|), Dot(x, x, |x|),
                  mx, my, Centred(x, mx, y, my), Centred(x, mx, x, mx));
    SlopeFrom(x, mx, y, my, a);
    ThroughFrom(x, mx, y, my, a, b);
    LeastSquaresExactly(x, y, a, b);
  }

  /** The denominator of the raw slope. */
  ghost predicate IsDenominator(den: real, n: real, sx: real, sxx: real) {
    den == n * sxx - sx * sx
  }

  lemma DenominatorExactly(x: Series, den: real)
    requires IsDenominator(den, |x| as real, Total(x), Dot(x, x, |x|))
    ensures den >= 0.0
    ensures den == 0.0 <==> AllEqual(x)
  {
    if x != [] {
      var m := TheMean(x);
      RawForm(x, m, x, m);
      SpreadExactly(x, m);
      DenominatorAlgebra(den, |x| as real, Total(x), Dot(x, x, |x|), Centred(x, m, x, m));
    }
  }

  lemma DenominatorAlgebra(den: real, n: real, sx: real, sxx: real, c: real)
    requires IsDenominator(den, n, sx, sxx) && IsRawForm(n, c, sxx, sx, sx) && n > 0.0 && c >= 0.0
    ensures den >= 0.0 && (den == 0.0 <==> c == 0.0)
  {
    Scale(n, c, n * c);
  }

  method Quotients(n: real, sx: real, sy: real, sxy: real, sxx: real) returns (a: real, b: real)
    requires n != 0.0 && n * sxx - sx * sx != 0.0
    ensures IsRawFit(a, b, n, sx, sy, sxy, sxx)
  {
    var num, den := n * sxy - sx * sy, n * sxx - sx * sx;
    a := num / den;
    b := (sy - a * sx) / n;
  }

  // ---- The methods.

  method Mean(y: Series) returns (mean: real)
    ensures IsMean(y, mean)
    ensures y == [] ==> mean == 0.0
  {
    if y == [] {
      return 0.0;
    }
    var sum := 0.0;
    for i := 0 to |y|
      invariant sum == Sum(y, i)
    {
      sum := sum + y[i];
    }
    mean := sum / |y| as real;
  }

  /** The coefficient of determination of any predictor. */
  method CalculateRSquared(x: Series, y: Series, predict: real -> real) returns (r: real)
    requires |x| == |y|
    ensures var misses := Misses(x, y, predict); IsRSquared(y, Dot(misses, misses, |x|), r)
  {
    var mean := Mean(y);
    ghost var dev, misses := Dev(y, mean), Misses(x, y, predict);
    var tss, rss := 0.0, 0.0;
    for i := 0 to |y|
      invariant tss == Dot(dev, dev, i)
      invariant rss == Dot(misses, misses, i)
    {
      var d, miss := y[i] - mean, y[i] - predict(x[i]);
      assert d == dev[i] && miss == misses[i];
      tss := tss + d * d;
      rss := rss + miss * miss;
    }
    r := Share(tss, rss);
    ShareOf(y, mean, rss, r);
  }

  method Share(tss: real, rss: real) returns (r: real)
    ensures IsShare(r, tss, rss)
  {
    if tss == 0.0 {
      return 0.0;
    }
    var left := rss / tss;
    r := 1.0 - left;
    assert left * tss == rss;
  }

  lemma ShareOf(y: Series, mean: real, rss: real, r: real)
    requires IsMean(y, mean) && IsShare(r, Centred(y, mean, y, mean), rss)
    ensures IsRSquared(y, rss, r)
  {
    forall my | IsMean(y, my)
      ensures Centred(y, my, y, my) == Centred(y, mean, y, mean)
    {
      if y != [] {
        OneMean(y, mean, my);
      }
    }
  }

  method FitLinear(x: Series, y: Series) returns (fit: Option<Fit>)
    requires |x| == |y|
    ensures fit.None? <==> AllEqual(x)
    ensures fit.Some? ==> IsFit(x, y, fit.value)
    ensures fit.Some? ==> IsOnlyBest(x, y, fit.value.a, fit.value.b)
  {
    var n := |x| as real;
    var sx, sy, sxy, sxx := 0.0, 0.0, 0.0, 0.0;
    for i := 0 to |x|
      invariant sx == Sum(x, i) && sy == Sum(y, i)
      invariant sxy == Dot(x, y, i) && sxx == Dot(x, x, i)
    {
      sx := sx + x[i];
      sy := sy + y[i];
      sxy := sxy + x[i] * y[i];
      sxx := sxx + x[i] * x[i];
    }
    DenominatorExactly(x, n * sxx - sx * sx);
    if n * sxx - sx * sx == 0.0 {
      return None;
    }
    var a, b := Quotients(n, sx, sy, sxy, sxx);
    RawFit(x, y, a, b);
    BestIsUniqueExactly(x, y, a, b);
    var r := CalculateRSquared(x, y, xi => a * xi + b);
    assert Misses(x, y, xi => a * xi + b) == Errors(x, y, a, b);
    fit := Some(Fit(a, b, r));
  }

  /** Joint spread and the two spreads around the means. */
  method Spreads(x: Series, y: Series) returns (num: real, denX: real, denY: real)
    requires |x| == |y|
    ensures forall mx, my | IsMean(x, mx) && IsMean(y, my) && x != [] ::
              num == Centred(x, mx, y, my) && denX == Centred(x, mx, x, mx) && denY == Centred(y, my, y, my)
  {
    var meanX := Mean(x);
    var meanY := Mean(y);
    ghost var u, v := Dev(x, meanX), Dev(y, meanY);
    num, denX, denY := 0.0, 0.0, 0.0;
    for i := 0 to |x|
      invariant num == Dot(u, v, i) && denX == Dot(u, u, i) && denY == Dot(v, v, i)
    {
      var dx, dy := x[i] - meanX, y[i] - meanY;
      assert dx == u[i] && dy == v[i];
      num := num + dx * dy;
      denX := denX + dx * dx;
      denY := denY + dy * dy;
    }
    forall mx, my | IsMean(x, mx) && IsMean(y, my) && x != []
      ensures mx == meanX && my == meanY
    {
      OneMean(x, mx, meanX);
      OneMean(y, my, meanY);
    }
  }

  method LinearSlope(x: Series, y: Series) returns (slope: real)
    ensures |x| != |y| || |x| < 2 ==> slope == 0.0
    ensures |x| == |y| && |x| >= 2 ==> FitsSlope(x, y, slope)
    ensures AllEqual(x) ==> slope == 0.0
  {
    if |x| != |y| || |x| < 2 {
      return 0.0;
    }
    var num, den, denY := Spreads(x, y);
    ghost var mx := TheMean(x);
    ghost var my := TheMean(y);
    SpreadExactly(x, mx);
    if den == 0.0 {
      NoSpread(x, mx, y, my);
      ZeroSlope(0.0, den, num);
      SlopeFrom(x, mx, y, my, 0.0);
      return 0.0;
    }
    slope := Divide(num, den);
    SlopeFrom(x, mx, y, my, slope);
  }

  method Divide(num: real, den: real) returns (slope: real)
    requires den != 0.0
    ensures IsSlope(slope, den, num)
  {
    slope := num / den;
  }

  // ---- Correlation.

  /** `root` takes the square root of every number that has one. */
  ghost predicate IsRoot(root: real -> real) {
    forall v :: v >= 0.0 ==> root(v) >= 0.0 && root(v) * root(v) == v
  }

  ghost predicate IsCorrelation(rho: real, sxy: real, sxx: real, syy: real) {
    if sxx == 0.0 || syy == 0.0 then
      rho == 0.0
    else
      IsSquaredCorrelation(rho * rho, sxy, sxx, syy) && (rho > 0.0 <==> sxy > 0.0) && (rho < 0.0 <==> sxy < 0.0)
  }

  /** `rho` is the correlation coefficient of the two series. */
  ghost predicate IsPearson(x: Series, y: Series, rho: real)
    requires |x| == |y|
  {
    forall mx, my | IsMean(x, mx) && IsMean(y, my) && x != [] ::
      IsCorrelation(rho, Centred(x, mx, y, my), Centred(x, mx, x, mx), Centred(y, my, y, my))
  }

  method PearsonCorrelation(x: Series, y: Series, root: real -> real) returns (rho: real)
    requires IsRoot(root)
    ensures |x| != |y| || |x| < 2 ==> rho == 0.0
    ensures |x| == |y| && |x| >= 2 ==> IsPearson(x, y, rho)
    ensures -1.0 <= rho <= 1.0
  {
    if |x| != |y| || |x| < 2 {
      return 0.0;
    }
    var num, denX, denY := Spreads(x, y);
    if denX == 0.0 || denY == 0.0 {
      return 0.0;
    }
    ghost var mx := TheMean(x);
    ghost var my := TheMean(y);
    SpreadExactly(x, mx);
    SpreadExactly(y, my);
    SpreadsBound(x, mx, y, my);
    rho := Normalise(num, denX, denY, root);
  }

  method Normalise(num: real, denX: real, denY: real, root: real -> real) returns (rho: real)
    requires IsRoot(root) && denX > 0.0 && denY > 0.0 && CauchySchwarz(num, denX, denY)
    ensures IsCorrelation(rho, num, denX, denY)
    ensures -1.0 <= rho <= 1.0
  {
    var product := denX * denY;
    SameSign(denX, denY, product);
    var norm := root(product);
    assert norm * norm == product;
    rho := num / norm;
    NormalisedAlgebra(rho, num, norm, product);
  }

  lemma NormalisedAlgebra(rho: real, num: real, norm: real, product: real)
    requires norm > 0.0 && norm * norm == product && rho * norm == num && num * num <= product
    ensures rho * rho * product == num * num
    ensures (rho > 0.0 <==> num > 0.0) && (rho < 0.0 <==> num < 0.0)
    ensures -1.0 <= rho <= 1.0
  {
    assert rho * rho * product == (rho * norm) * (rho * norm);
    if rho > 0.0 {
      SameSign(rho, norm, num);
    } else if rho < 0.0 {
      SameSign(-rho, norm, -num);
    }
    if rho > 1.0 {
      Beyond(num, rho, norm);
    } else if rho < -1.0 {
      Beyond(-num, -rho, norm);
    }
  }

  lemma Beyond(num: real, rho: real, norm: real)
    requires norm > 0.0 && rho * norm == num && rho > 1.0
    ensures num * num > norm * norm
  {
    SameSign(rho - 1.0, norm, num - norm);
    var gap, sum := num - norm, num + norm;
    SameSign(gap, sum, gap * sum);
    assert gap * sum == num * num - norm * norm;
  }

  // ---- The formulas agree.

  /** Whatever formula a slope came from, there is only one, unless all x are equal. */
  lemma SlopesAgree(x: Series, y: Series, a: real, b: real, slope: real)
    requires |x| == |y| > 0 && IsBest(x, y, a, b) && FitsSlope(x, y, slope)
    ensures !AllEqual(x) ==> slope == a
  {
    var mx := TheMean(x);
    var my := TheMean(y);
    LeastSquaresExactly(x, y, a, b);
    SlopeFrom(x, mx, y, my, a);
    SlopeFrom(x, mx, y, my, slope);
    SpreadExactly(x, mx);
    if !AllEqual(x) {
      Cancel2(a, slope, Centred(x, mx, x, mx), Centred(x, mx, y, my));
    }
  }

  lemma Cancel2(a: real, a': real, sxx: real, sxy: real)
    requires sxx > 0.0 && IsSlope(a, sxx, sxy) && IsSlope(a', sxx, sxy)
    ensures a == a'
  {
    Cancel(a, a', sxx);
  }

  /** A straight-line fit's coefficient of determination is the squared correlation. */
  lemma RSquaredIsPearsonSquared(x: Series, y: Series, fit: Fit, rho: real)
    requires |x| == |y| && IsFit(x, y, fit) && IsPearson(x, y, rho) && !AllEqual(x)
    ensures fit.rSquared == rho * rho
  {
    var mx := TheMean(x);
    var my := TheMean(y);
    RSquaredIsCorrelation(x, mx, y, my, fit.a, fit.b, fit.rSquared);
    SpreadExactly(x, mx);
    SpreadExactly(y, my);
    var sxy, sxx, syy := Centred(x, mx, y, my), Centred(x, mx, x, mx), Centred(y, my, y, my);
    if syy == 0.0 {
      assert IsShare(fit.rSquared, syy, Residuals(x, y, fit.a, fit.b));
      assert IsCorrelation(rho, sxy, sxx, syy);
    } else {
      assert IsCorrelation(rho, sxy, sxx, syy);
      OneSquare(fit.rSquared, rho * rho, sxy, sxx, syy);
    }
  }

  lemma OneSquare(r: real, r': real, sxy: real, sxx: real, syy: real)
    requires sxx > 0.0 && syy > 0.0
    requires IsSquaredCorrelation(r, sxy, sxx, syy) && IsSquaredCorrelation(r', sxy, sxx, syy)
    ensures r == r'
  {
    var product := sxx * syy;
    SameSign(sxx, syy, product);
    Cancel(r, r', product);
  }

  // ---- Regression over positions.

  /** The x values 0, 1, ..., n - 1. */
  function Positions(n: nat): (x: Series)
    ensures |x| == n
  {
    seq(n, i requires 0 <= i < n => i as real)
  }

  lemma {:induction false} PositionSum(n: nat, k: nat)
    requires k <= n
    ensures 2.0 * Sum(Positions(n), k) == k as real * (k as real - 1.0)
  {
    if k > 0 {
      PositionSum(n, k - 1);
    }
  }

  /** The sums the regression needs; the first from its closed form. */
  method PositionSums(data: Series) returns (sumX: real, sumY: real, sumXY: real, sumX2: real)
    ensures sumX == Total(Positions(|data|)) && sumY == Total(data)
    ensures sumXY == Dot(Positions(|data|), data, |data|)
    ensures sumX2 == Dot(Positions(|data|), Positions(|data|), |data|)
  {
    ghost var x := Positions(|data|);
    sumX := |data| as real * (|data| as real - 1.0) / 2.0;
    PositionSum(|data|, |data|);
    var mean := Mean(data);
    sumY := mean * |data| as real;
    sumXY, sumX2 := 0.0, 0.0;
    for i := 0 to |data|
      invariant sumXY == Dot(x, data, i) && sumX2 == Dot(x, x, i)
    {
      sumXY := sumXY + i as real * data[i];
      sumX2 := sumX2 + i as real * i as real;
    }
  }

  method PositionShare(data: Series, slope: real, intercept: real) returns (rSquared: real)
    ensures IsRSquared(data, Residuals(Positions(|data|), data, slope, intercept), rSquared)
  {
    var mean := Mean(data);
    ghost var errors, dev := Errors(Positions(|data|), data, slope, intercept), Dev(data, mean);
    var ssRes, ssTot := 0.0, 0.0;
    for i := 0 to |data|
      invariant ssRes == Dot(errors, errors, i) && ssTot == Dot(dev, dev, i)
    {
      var error, d := data[i] - (slope * i as real + intercept), data[i] - mean;
      assert error == errors[i] && d == dev[i];
      ssRes := ssRes + error * error;
      ssTot := ssTot + d * d;
    }
    rSquared := Share(ssTot, ssRes);
    ShareOf(data, mean, ssRes, rSquared);
  }

  method LinearRegression(data: Series) returns (fit: Fit)
    ensures |data| < 2 ==> fit == Fit(0.0, 0.0, 0.0)
    ensures |data| >= 2 ==> IsFit(Positions(|data|), data, fit)
    ensures |data| >= 2 ==> IsOnlyBest(Positions(|data|), data, fit.a, fit.b)
  {
    if |data| < 2 {
      return Fit(0.0, 0.0, 0.0);
    }
    ghost var x := Positions(|data|);
    assert x[0] != x[1];
    var n := |data| as real;
    var sumX, sumY, sumXY, sumX2 := PositionSums(data);
    DenominatorExactly(x, n * sumX2 - sumX * sumX);
    var slope, intercept := Quotients(n, sumX, sumY, sumXY, sumX2);
    RawFit(x, data, slope, intercept);
    BestIsUniqueExactly(x, data, slope, intercept);
    var rSquared := PositionShare(data, slope, intercept);
    fit := Fit(slope, intercept, rSquared);
  }
}
