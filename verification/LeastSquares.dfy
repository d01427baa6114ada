/** Which lines leave the least squared residuals, and how much of the spread of `y`
    they explain. */
module LeastSquares {

  import opened Sums

  /** `a` times the spread of x is the joint spread of x and y. */
  ghost predicate IsSlope(a: real, sxx: real, sxy: real) {
    a * sxx == sxy
  }

  /** `a` is a least-squares slope of `y` over `x`, in centred form. */
  ghost predicate FitsSlope(x: Series, y: Series, a: real)
    requires |x| == |y|
  {
    forall mx, my | IsMean(x, mx) && IsMean(y, my) ::
      IsSlope(a, Centred(x, mx, x, mx), Centred(x, mx, y, my))
  }

  /** `b` takes a line of slope `a` through the point of means. */
  ghost predicate IsHeight(b: real, my: real, a: real, mx: real) {
    b == my - a * mx
  }

  /** The line `a * x + b` passes through the point of means. */
  ghost predicate ThroughMeans(x: Series, y: Series, a: real, b: real) {
    forall mx, my | IsMean(x, mx) && IsMean(y, my) :: IsHeight(b, my, a, mx)
  }

  /** No line leaves smaller squared residuals than `a * x + b`. */
  ghost predicate IsBest(x: Series, y: Series, a: real, b: real)
    requires |x| == |y|
  {
    forall a', b' :: Residuals(x, y, a, b) <= Residuals(x, y, a', b')
  }

  /** Every other line leaves strictly larger squared residuals. */
  ghost predicate IsOnlyBest(x: Series, y: Series, a: real, b: real)
    requires |x| == |y|
  {
    forall a', b' :: (a', b') != (a, b) ==> Residuals(x, y, a, b) < Residuals(x, y, a', b')
  }

  /** The share `r` of the spread `tss` that residuals `rss` do not leave over; zero
      when there is no spread. */
  ghost predicate IsShare(r: real, tss: real, rss: real) {
    if tss == 0.0 then r == 0.0 else r * tss == tss - rss
  }

  /** `r` is the coefficient of determination of residuals `rss` on data `y`. */
  ghost predicate IsRSquared(y: Series, rss: real, r: real) {
    forall my | IsMean(y, my) :: IsShare(r, Centred(y, my, y, my), rss)
  }

  // ---- Means.

  lemma TheMean(x: Series) returns (m: real)
    requires x != []
    ensures IsMean(x, m)
  {
    m := Quotient(Total(x), |x| as real);
  }

  /** A value with `q * d == n`. */
  lemma Quotient(n: real, d: real) returns (q: real)
    requires d != 0.0
    ensures q * d == n
  {
    q := n / d;
  }

  lemma OneMean(x: Series, m: real, m': real)
    requires x != [] && IsMean(x, m) && IsMean(x, m')
    ensures m == m'
  {
    Cancel(m, m', |x| as real);
  }

  lemma SlopeFrom(x: Series, mx: real, y: Series, my: real, a: real)
    requires |x| == |y| > 0 && IsMean(x, mx) && IsMean(y, my)
    ensures FitsSlope(x, y, a) <==> IsSlope(a, Centred(x, mx, x, mx), Centred(x, mx, y, my))
  {
    forall mx', my' | IsMean(x, mx') && IsMean(y, my')
      ensures mx' == mx && my' == my
    {
      OneMean(x, mx, mx');
      OneMean(y, my, my');
    }
  }

  lemma ThroughFrom(x: Series, mx: real, y: Series, my: real, a: real, b: real)
    requires |x| == |y| > 0 && IsMean(x, mx) && IsMean(y, my)
    ensures ThroughMeans(x, y, a, b) <==> IsHeight(b, my, a, mx)
  {
    forall mx', my' | IsMean(x, mx') && IsMean(y, my')
      ensures mx' == mx && my' == my
    {
      OneMean(x, mx, mx');
      OneMean(y, my, my');
    }
  }

  // ---- The parabola's least value.

  /** How far a line with slope off by `d` and height off by `c` is above the best. */
  ghost predicate IsGap(r': real, r: real, sxx: real, d: real, n: real, c: real) {
    r' == r + sxx * (d * d) + n * (c * c)
  }

  lemma ParabolaGap(r: real, r': real, syy: real, sxy: real, sxx: real, a: real, a': real, d: real)
    requires OnParabola(r, syy, sxy, sxx, a) && OnParabola(r', syy, sxy, sxx, a')
    requires IsSlope(a, sxx, sxy) && a' == a + d
    ensures r' == r + sxx * (d * d)
  {
    var p, q, t := a * sxx, d * sxx, d * d;
    assert a * sxy == a * p && a' * sxy == a * p + d * p;
    assert a * a * sxx == a * p;
    assert a' * a' * sxx == a * p + 2.0 * (d * p) + sxx * t by {
      assert a' * a' == a * a + 2.0 * (a * d) + t;
      assert (a * d) * sxx == d * p;
    }
  }

  lemma LineGap(r: real, r': real, syy: real, sxy: real, sxx: real, a: real, a': real, n: real, c: real)
    requires OnRaisedParabola(r, syy, sxy, sxx, a, n, 0.0)
    requires OnRaisedParabola(r', syy, sxy, sxx, a', n, c)
    requires IsSlope(a, sxx, sxy)
    ensures IsGap(r', r, sxx, a' - a, n, c)
  {
    var flat :| OnParabola(flat, syy, sxy, sxx, a) && IsRaised(r, flat, n, 0.0);
    var flat' :| OnParabola(flat', syy, sxy, sxx, a') && IsRaised(r', flat', n, c);
    ParabolaGap(flat, flat', syy, sxy, sxx, a, a', a' - a);
  }

  lemma GapSign(r': real, r: real, sxx: real, d: real, n: real, c: real)
    requires IsGap(r', r, sxx, d, n, c) && sxx >= 0.0 && n > 0.0
    ensures r' >= r
    ensures c != 0.0 || (sxx > 0.0 && d != 0.0) ==> r' > r
  {
    var dd, cc := d * d, c * c;
    Square(d, dd);
    Square(c, cc);
    Scale(sxx, dd, sxx * dd);
    Scale(n, cc, n * cc);
  }

  lemma Scale(k: real, v: real, product: real)
    requires k >= 0.0 && v >= 0.0 && product == k * v
    ensures product >= 0.0
    ensures k > 0.0 && v > 0.0 ==> product > 0.0
  {
    if k > 0.0 && v > 0.0 {
      SameSign(k, v, product);
    }
  }

  /** Any line against one that has the right slope and passes through the means. */
  lemma FitAgainst(x: Series, mx: real, y: Series, my: real, a: real, a': real, b': real)
    requires |x| == |y| > 0 && IsMean(x, mx) && IsMean(y, my)
    requires IsSlope(a, Centred(x, mx, x, mx), Centred(x, mx, y, my))
    ensures var r, r' := Residuals(x, y, a, my - a * mx), Residuals(x, y, a', b');
            r' >= r &&
            (b' != my - a' * mx || (Centred(x, mx, x, mx) > 0.0 && a' != a) ==> r' > r)
  {
    var sxx, sxy, syy, n := Centred(x, mx, x, mx), Centred(x, mx, y, my), Centred(y, my, y, my), |x| as real;
    var b := my - a * mx;
    var base := my - a' * mx;
    var c := b' - base;
    ResidualsOfLine(x, mx, y, my, a, 0.0);
    ResidualsOfLine(x, mx, y, my, a', c);
    assert b == (my - a * mx) + 0.0 && b' == (my - a' * mx) + c;
    LineGap(Residuals(x, y, a, b), Residuals(x, y, a', b'), syy, sxy, sxx, a, a', n, c);
    SpreadExactly(x, mx);
    GapSign(Residuals(x, y, a', b'), Residuals(x, y, a, b), sxx, a' - a, n, c);
  }

  // ---- The theorems.

  /** A line leaves the least residuals exactly when it has the centred slope and
      passes through the point of means. */
  lemma LeastSquaresExactly(x: Series, y: Series, a: real, b: real)
    requires |x| == |y| > 0
    ensures IsBest(x, y, a, b) <==> FitsSlope(x, y, a) && ThroughMeans(x, y, a, b)
  {
    var mx := TheMean(x);
    var my := TheMean(y);
    SlopeFrom(x, mx, y, my, a);
    ThroughFrom(x, mx, y, my, a, b);
    var sxx, sxy := Centred(x, mx, x, mx), Centred(x, mx, y, my);
    if FitsSlope(x, y, a) && ThroughMeans(x, y, a, b) {
      forall a', b'
        ensures Residuals(x, y, a, b) <= Residuals(x, y, a', b')
      {
        FitAgainst(x, mx, y, my, a, a', b');
      }
    } else {
      var best := SomeSlope(x, mx, y, my);
      FitAgainst(x, mx, y, my, best, a, b);
      SpreadExactly(x, mx);
      if sxx == 0.0 {
        NoSpread(x, mx, y, my);
        ZeroSlope(a, sxx, sxy);
      }
      assert Residuals(x, y, best, my - best * mx) < Residuals(x, y, a, b);
    }
  }

  lemma ZeroSlope(a: real, sxx: real, sxy: real)
    requires sxx == 0.0 && sxy == 0.0
    ensures IsSlope(a, sxx, sxy)
  {
  }

  lemma SomeSlope(x: Series, mx: real, y: Series, my: real) returns (a: real)
    requires |x| == |y| > 0 && IsMean(x, mx) && IsMean(y, my)
    ensures IsSlope(a, Centred(x, mx, x, mx), Centred(x, mx, y, my))
  {
    var sxx, sxy := Centred(x, mx, x, mx), Centred(x, mx, y, my);
    if sxx == 0.0 {
      NoSpread(x, mx, y, my);
      a := 0.0;
      ZeroSlope(a, sxx, sxy);
    } else {
      a := Quotient(sxy, sxx);
    }
  }

  /** Equal x values have no joint spread with anything. */
  lemma NoSpread(x: Series, mx: real, y: Series, my: real)
    requires |x| == |y| && IsMean(x, mx) && Centred(x, mx, x, mx) == 0.0
    ensures Centred(x, mx, y, my) == 0.0
  {
    var d := Dev(x, mx);
    DotSelf(d, |x|);
    DotZero(d, Dev(y, my), |x|);
  }

  lemma {:induction false} DotZero(x: Series, y: Series, n: nat)
    requires n <= |x| && n <= |y| && forall i :: 0 <= i < n ==> x[i] == 0.0
    ensures Dot(x, y, n) == 0.0
  {
    if n > 0 {
      DotZero(x, y, n - 1);
    }
  }

  /** Unless all x are equal there is one best line; if they are, there are many. */
  lemma BestIsUniqueExactly(x: Series, y: Series, a: real, b: real)
    requires |x| == |y| > 0 && IsBest(x, y, a, b)
    ensures IsOnlyBest(x, y, a, b) <==> !AllEqual(x)
  {
    var mx := TheMean(x);
    var my := TheMean(y);
    LeastSquaresExactly(x, y, a, b);
    SlopeFrom(x, mx, y, my, a);
    ThroughFrom(x, mx, y, my, a, b);
    SpreadExactly(x, mx);
    forall a', b'
      ensures !AllEqual(x) && (a', b') != (a, b) ==> Residuals(x, y, a, b) < Residuals(x, y, a', b')
    {
      FitAgainst(x, mx, y, my, a, a', b');
      assert my - a * mx == b;
      assert a' == a ==> my - a' * mx == b;
    }
    if AllEqual(x) {
      var steeper := a + 1.0;
      NoSpread(x, mx, y, my);
      ZeroSlope(steeper, Centred(x, mx, x, mx), Centred(x, mx, y, my));
      FitAgainst(x, mx, y, my, steeper, a, b);
      assert (steeper, my - steeper * mx) != (a, b);
    }
  }

  /** What the best line leaves: `syy - a * sxy`. */
  ghost predicate IsLeast(r: real, syy: real, a: real, sxy: real) {
    r == syy - a * sxy
  }

  lemma LeastResiduals(x: Series, mx: real, y: Series, my: real, a: real, b: real)
    requires |x| == |y| > 0 && IsMean(x, mx) && IsMean(y, my) && IsBest(x, y, a, b)
    ensures IsSlope(a, Centred(x, mx, x, mx), Centred(x, mx, y, my))
    ensures IsLeast(Residuals(x, y, a, b), Centred(y, my, y, my), a, Centred(x, mx, y, my))
  {
    LeastSquaresExactly(x, y, a, b);
    SlopeFrom(x, mx, y, my, a);
    ThroughFrom(x, mx, y, my, a, b);
    ResidualsOfLine(x, mx, y, my, a, 0.0);
    assert b == (my - a * mx) + 0.0;
    LeastAlgebra(Residuals(x, y, a, b), Centred(y, my, y, my), Centred(x, mx, y, my),
                 Centred(x, mx, x, mx), a, |x| as real);
  }

  lemma LeastAlgebra(r: real, syy: real, sxy: real, sxx: real, a: real, n: real)
    requires OnRaisedParabola(r, syy, sxy, sxx, a, n, 0.0) && IsSlope(a, sxx, sxy)
    ensures IsLeast(r, syy, a, sxy)
  {
    var flat :| OnParabola(flat, syy, sxy, sxx, a) && IsRaised(r, flat, n, 0.0);
    assert a * a * sxx == a * sxy;
  }

  /** Residuals are never negative, and vanish exactly on points of the line. */
  lemma PerfectExactly(x: Series, y: Series, a: real, b: real)
    requires |x| == |y|
    ensures Residuals(x, y, a, b) >= 0.0
    ensures Residuals(x, y, a, b) == 0.0 <==> forall i :: 0 <= i < |x| ==> y[i] == a * x[i] + b
  {
    var e := Errors(x, y, a, b);
    DotSelf(e, |e|);
    if forall i :: 0 <= i < |x| ==> y[i] == a * x[i] + b {
      assert forall i :: 0 <= i < |x| ==> e[i] == 0.0;
      DotZero(e, e, |e|);
    } else {
      var i :| 0 <= i < |x| && y[i] != a * x[i] + b;
      assert e[i] != 0.0;
    }
  }

  /** The coefficient of determination of the best line lies in [0, 1]. It is 1 exactly
      when `y` is not constant and every point is on the line. */
  lemma RSquaredInRange(x: Series, y: Series, a: real, b: real, r: real)
    requires |x| == |y| > 0 && IsBest(x, y, a, b) && IsRSquared(y, Residuals(x, y, a, b), r)
    ensures 0.0 <= r <= 1.0
    ensures r == 1.0 <==> !AllEqual(y) && forall i :: 0 <= i < |x| ==> y[i] == a * x[i] + b
  {
    var mx := TheMean(x);
    var my := TheMean(y);
    var rss, tss := Residuals(x, y, a, b), Centred(y, my, y, my);
    FlatLine(x, y, my);
    PerfectExactly(x, y, a, b);
    SpreadExactly(y, my);
    if tss != 0.0 {
      ShareInRange(r, tss, rss);
    }
  }

  lemma ShareInRange(r: real, tss: real, rss: real)
    requires tss > 0.0 && 0.0 <= rss <= tss && IsShare(r, tss, rss)
    ensures 0.0 <= r <= 1.0
    ensures r == 1.0 <==> rss == 0.0
  {
    if r < 0.0 {
      SameSign(-r, tss, -r * tss);
    } else if r > 1.0 {
      SameSign(r - 1.0, tss, (r - 1.0) * tss);
    } else if r < 1.0 {
      SameSign(1.0 - r, tss, (1.0 - r) * tss);
    }
  }

  /** The flat line at the mean leaves the whole spread of `y`. */
  lemma FlatLine(x: Series, y: Series, my: real)
    requires |x| == |y|
    ensures Residuals(x, y, 0.0, my) == Centred(y, my, y, my)
  {
    assert Errors(x, y, 0.0, my) == Dev(y, my);
  }

  ghost predicate CauchySchwarz(sxy: real, sxx: real, syy: real) {
    sxy * sxy <= sxx * syy
  }

  /** Cauchy-Schwarz with equality. */
  ghost predicate Tight(sxy: real, sxx: real, syy: real) {
    sxy * sxy == sxx * syy
  }

  /** Some line leaves no residuals, so it goes through every point (`PerfectExactly`). */
  ghost predicate OnALine(x: Series, y: Series)
    requires |x| == |y|
  {
    exists a, b :: Residuals(x, y, a, b) == 0.0
  }

  /** The squared joint spread never exceeds the product of the spreads, and reaches it
      exactly when the x are all equal or the points lie on a line. */
  lemma SpreadsBound(x: Series, mx: real, y: Series, my: real)
    requires |x| == |y| > 0 && IsMean(x, mx) && IsMean(y, my)
    ensures CauchySchwarz(Centred(x, mx, y, my), Centred(x, mx, x, mx), Centred(y, my, y, my))
    ensures Tight(Centred(x, mx, y, my), Centred(x, mx, x, mx), Centred(y, my, y, my))
            <==> AllEqual(x) || OnALine(x, y)
  {
    var a := SomeSlope(x, mx, y, my);
    SlopeFrom(x, mx, y, my, a);
    var b := my - a * mx;
    ThroughFrom(x, mx, y, my, a, b);
    LeastSquaresExactly(x, y, a, b);
    LeastResiduals(x, mx, y, my, a, b);
    PerfectExactly(x, y, a, b);
    SpreadExactly(x, mx);
    BoundAlgebra(Residuals(x, y, a, b), Centred(y, my, y, my), Centred(x, mx, y, my), Centred(x, mx, x, mx), a);
    if OnALine(x, y) {
      var a', b' :| Residuals(x, y, a', b') == 0.0;
      assert Residuals(x, y, a, b) <= Residuals(x, y, a', b');
    }
  }

  lemma BoundAlgebra(r: real, syy: real, sxy: real, sxx: real, a: real)
    requires r >= 0.0 && sxx >= 0.0 && IsLeast(r, syy, a, sxy) && IsSlope(a, sxx, sxy)
    ensures CauchySchwarz(sxy, sxx, syy)
    ensures Tight(sxy, sxx, syy) <==> sxx == 0.0 || r == 0.0
  {
    var gap := sxx * r;
    Scale(sxx, r, gap);
    assert gap == sxx * syy - sxx * (a * sxy);
    assert sxx * (a * sxy) == (a * sxx) * sxy;
  }

  /** The squared correlation coefficient times both spreads is the squared joint spread. */
  ghost predicate IsSquaredCorrelation(square: real, sxy: real, sxx: real, syy: real) {
    square * (sxx * syy) == sxy * sxy
  }

  /** The best line's coefficient of determination is the squared correlation. */
  lemma RSquaredIsCorrelation(x: Series, mx: real, y: Series, my: real, a: real, b: real, r: real)
    requires |x| == |y| > 0 && IsMean(x, mx) && IsMean(y, my)
    requires IsBest(x, y, a, b) && IsRSquared(y, Residuals(x, y, a, b), r)
    ensures IsSquaredCorrelation(r, Centred(x, mx, y, my), Centred(x, mx, x, mx), Centred(y, my, y, my))
  {
    var sxy, sxx, syy := Centred(x, mx, y, my), Centred(x, mx, x, mx), Centred(y, my, y, my);
    LeastResiduals(x, mx, y, my, a, b);
    if syy == 0.0 {
      SpreadsBound(x, mx, y, my);
      NoCorrelation(r, sxy, sxx, syy);
    } else {
      CorrelationAlgebra(r, Residuals(x, y, a, b), syy, sxy, sxx, a);
    }
  }

  lemma NoCorrelation(r: real, sxy: real, sxx: real, syy: real)
    requires syy == 0.0 && CauchySchwarz(sxy, sxx, syy)
    ensures IsSquaredCorrelation(r, sxy, sxx, syy)
  {
    Square(sxy, sxy * sxy);
    assert sxx * syy == 0.0;
  }

  lemma CorrelationAlgebra(r: real, rss: real, syy: real, sxy: real, sxx: real, a: real)
    requires syy != 0.0 && IsShare(r, syy, rss) && IsLeast(rss, syy, a, sxy) && IsSlope(a, sxx, sxy)
    ensures IsSquaredCorrelation(r, sxy, sxx, syy)
  {
    assert r * syy == a * sxy;
    assert r * (sxx * syy) == (r * syy) * sxx;
    assert (a * sxy) * sxx == (a * sxx) * sxy;
  }
}
