/** Sums over data series, in exact reals. The last argument of a sum is how many
    leading terms it takes. */
module Sums {

  type Series = seq<real>

  function Sum(x: Series, n: nat): real
    requires n <= |x|
  {
    if n == 0 then 0.0 else Sum(x, n - 1) + x[n - 1]
  }

  /** The sum of products. */
  function Dot(x: Series, y: Series, n: nat): real
    requires n <= |x| && n <= |y|
  {
    if n == 0 then 0.0 else Dot(x, y, n - 1) + x[n - 1] * y[n - 1]
  }

  function Total(x: Series): real {
    Sum(x, |x|)
  }

  /** `m` is the mean of `n` values with this total. */
  ghost predicate Averages(m: real, n: real, total: real) {
    m * n == total
  }

  /** `m` is the mean of `x`; any number is, of no values at all. */
  ghost predicate IsMean(x: Series, m: real) {
    Averages(m, |x| as real, Total(x))
  }

  /** Deviations from `m`. */
  function Dev(x: Series, m: real): (d: Series)
    ensures |d| == |x|
  {
    seq(|x|, i requires 0 <= i < |x| => x[i] - m)
  }

  /** What the line `a * x + b` leaves of `y`. */
  function Errors(x: Series, y: Series, a: real, b: real): (e: Series)
    requires |x| == |y|
    ensures |e| == |x|
  {
    seq(|x|, i requires 0 <= i < |x| => y[i] - (a * x[i] + b))
  }

  /** The sum of squared residuals of the line `a * x + b`. */
  function Residuals(x: Series, y: Series, a: real, b: real): real
    requires |x| == |y|
  {
    var e := Errors(x, y, a, b);
    Dot(e, e, |e|)
  }

  /** Deviations around `mx` and `my`, multiplied and summed. */
  function Centred(x: Series, mx: real, y: Series, my: real): real
    requires |x| == |y|
  {
    Dot(Dev(x, mx), Dev(y, my), |x|)
  }

  /** `v - a * u`, term by term. */
  function Less(v: Series, a: real, u: Series): (d: Series)
    requires |u| == |v|
    ensures |d| == |v|
  {
    seq(|v|, i requires 0 <= i < |v| => v[i] - a * u[i])
  }

  ghost predicate AllEqual(x: Series) {
    forall i, j :: 0 <= i < j < |x| ==> x[i] == x[j]
  }

  // ---- Squares.

  lemma SameSign(u: real, v: real, product: real)
    requires product == u * v
    requires (u > 0.0 && v > 0.0) || (u < 0.0 && v < 0.0)
    ensures product > 0.0
  {
  }

  lemma Square(v: real, square: real)
    requires square == v * v
    ensures square >= 0.0
    ensures v != 0.0 ==> square > 0.0
  {
    if v != 0.0 {
      SameSign(v, v, square);
    }
  }

  lemma {:induction false} DotSelf(x: Series, n: nat)
    requires n <= |x|
    ensures Dot(x, x, n) >= 0.0
    ensures forall i :: 0 <= i < n && x[i] != 0.0 ==> Dot(x, x, n) > 0.0
  {
    if n > 0 {
      DotSelf(x, n - 1);
      var last := x[n - 1] * x[n - 1];
      Square(x[n - 1], last);
      assert Dot(x, x, n) == Dot(x, x, n - 1) + last;
    }
  }

  // ---- Linearity.

  lemma {:induction false} SumDev(x: Series, m: real, n: nat)
    requires n <= |x|
    ensures Sum(Dev(x, m), n) == Sum(x, n) - n as real * m
  {
    if n > 0 {
      SumDev(x, m, n - 1);
    }
  }

  lemma {:induction false} SumLess(v: Series, a: real, u: Series, n: nat)
    requires n <= |u| == |v|
    ensures Sum(Less(v, a, u), n) == Sum(v, n) - a * Sum(u, n)
  {
    if n > 0 {
      SumLess(v, a, u, n - 1);
      assert a * Sum(u, n) == a * Sum(u, n - 1) + a * u[n - 1];
    }
  }

  /** The sum `d` of `v - a * u`, given the sums of `v` and `u`. */
  ghost predicate IsLess(d: real, v: real, a: real, u: real) {
    d == v - a * u
  }

  lemma {:induction false} DotDev(x: Series, m: real, y: Series, n: nat)
    requires n <= |x| == |y|
    ensures IsLess(Dot(Dev(x, m), y, n), Dot(x, y, n), m, Sum(y, n))
  {
    if n > 0 {
      var k := n - 1;
      DotDev(x, m, y, k);
      assert Dev(x, m)[k] * y[k] == x[k] * y[k] - m * y[k];
      assert m * Sum(y, n) == m * Sum(y, k) + m * y[k];
    }
  }

  lemma {:induction false} DotSwap(x: Series, y: Series, n: nat)
    requires n <= |x| && n <= |y|
    ensures Dot(x, y, n) == Dot(y, x, n)
  {
    if n > 0 {
      DotSwap(x, y, n - 1);
    }
  }

  lemma {:induction false} DotLinear(v: Series, a: real, u: Series, w: Series, n: nat)
    requires n <= |u| == |v| == |w|
    ensures IsLess(Dot(Less(v, a, u), w, n), Dot(v, w, n), a, Dot(u, w, n))
  {
    if n > 0 {
      var k := n - 1;
      DotLinear(v, a, u, w, k);
      assert Less(v, a, u)[k] * w[k] == v[k] * w[k] - a * (u[k] * w[k]);
      assert a * Dot(u, w, n) == a * Dot(u, w, k) + a * (u[k] * w[k]);
    }
  }

  /** The value `r` at `a` of the parabola with these three coefficients. */
  ghost predicate OnParabola(r: real, vv: real, uv: real, uu: real, a: real) {
    r == vv - 2.0 * a * uv + a * a * uu
  }

  lemma LessAlgebra(dd: real, vd: real, ud: real, vv: real, uv: real, uu: real, a: real)
    requires IsLess(dd, vd, a, ud) && IsLess(vd, vv, a, uv) && IsLess(ud, uv, a, uu)
    ensures OnParabola(dd, vv, uv, uu, a)
  {
  }

  lemma DotLess(v: Series, a: real, u: Series, n: nat)
    requires n <= |u| == |v|
    ensures var d := Less(v, a, u);
            OnParabola(Dot(d, d, n), Dot(v, v, n), Dot(u, v, n), Dot(u, u, n), a)
  {
    var d := Less(v, a, u);
    DotLinear(v, a, u, d, n);
    DotLinear(v, a, u, v, n);
    DotLinear(v, a, u, u, n);
    DotSwap(v, d, n);
    DotSwap(u, d, n);
    DotSwap(u, v, n);
    LessAlgebra(Dot(d, d, n), Dot(v, d, n), Dot(u, d, n), Dot(v, v, n), Dot(u, v, n), Dot(u, u, n), a);
  }

  // ---- Around the means.

  lemma DeviationsCancel(x: Series, m: real)
    requires IsMean(x, m)
    ensures Total(Dev(x, m)) == 0.0
  {
    SumDev(x, m, |x|);
  }

  lemma LessNothing(d: real, v: real, a: real)
    requires IsLess(d, v, a, 0.0)
    ensures d == v
  {
  }

  /** Centring one series is enough: the other side's deviations cancel. */
  lemma CentredOneSided(x: Series, mx: real, y: Series, my: real)
    requires |x| == |y| && IsMean(y, my)
    ensures IsLess(Centred(x, mx, y, my), Dot(x, y, |x|), my, Total(x))
  {
    var dy := Dev(y, my);
    DotDev(x, mx, dy, |x|);
    DeviationsCancel(y, my);
    LessNothing(Centred(x, mx, y, my), Dot(x, dy, |x|), mx);
    DotSwap(x, dy, |x|);
    DotDev(y, my, x, |x|);
    DotSwap(y, x, |x|);
  }

  /** `n` times a centred sum, written with raw sums only. */
  ghost predicate IsRawForm(n: real, centred: real, products: real, sx: real, sy: real) {
    n * centred == n * products - sx * sy
  }

  lemma RawFormAlgebra(n: real, centred: real, products: real, sx: real, sy: real, my: real)
    requires Averages(my, n, sy) && IsLess(centred, products, my, sx)
    ensures IsRawForm(n, centred, products, sx, sy)
  {
    assert sx * sy == n * (my * sx);
  }

  lemma RawForm(x: Series, mx: real, y: Series, my: real)
    requires |x| == |y| && IsMean(y, my)
    ensures IsRawForm(|y| as real, Centred(x, mx, y, my), Dot(x, y, |x|), Total(x), Total(y))
  {
    CentredOneSided(x, mx, y, my);
    RawFormAlgebra(|y| as real, Centred(x, mx, y, my), Dot(x, y, |x|), Total(x), Total(y), my);
  }

  /** The x values spread exactly when they are not all equal. */
  lemma SpreadExactly(x: Series, m: real)
    requires IsMean(x, m)
    ensures Centred(x, m, x, m) >= 0.0
    ensures Centred(x, m, x, m) > 0.0 <==> !AllEqual(x)
  {
    var d := Dev(x, m);
    DotSelf(d, |x|);
    if AllEqual(x) {
      AllZero(x, m);
    } else {
      var i, j :| 0 <= i < j < |x| && x[i] != x[j];
      assert d[i] != 0.0 || d[j] != 0.0;
    }
  }

  lemma {:induction false} SumConstant(x: Series, c: real, n: nat)
    requires n <= |x| && forall i :: 0 <= i < n ==> x[i] == c
    ensures Sum(x, n) == n as real * c
    ensures c == 0.0 ==> Dot(x, x, n) == 0.0
  {
    if n > 0 {
      SumConstant(x, c, n - 1);
    }
  }

  lemma AllZero(x: Series, m: real)
    requires AllEqual(x) && IsMean(x, m)
    ensures Centred(x, m, x, m) == 0.0
  {
    if x != [] {
      SumConstant(x, x[0], |x|);
      Cancel(m, x[0], |x| as real);
      SumConstant(Dev(x, m), 0.0, |x|);
    }
  }

  lemma Cancel(a: real, b: real, n: real)
    requires n > 0.0 && a * n == n * b
    ensures a == b
  {
    assert (a - b) * n == 0.0;
  }

  /** A parabola in the slope `a`, plus `n * c * c` for lying `c` above the means. */
  ghost predicate OnRaisedParabola(r: real, syy: real, sxy: real, sxx: real, a: real, n: real, c: real) {
    exists flat :: OnParabola(flat, syy, sxy, sxx, a) && IsRaised(r, flat, n, c)
  }

  /** Raising `n` residuals that sum to zero by `c` adds `c * c` for each. */
  ghost predicate IsRaised(raised: real, flat: real, n: real, c: real) {
    raised == flat + n * (c * c)
  }

  /** The residuals of any line `a * x + b`, with `c` its height above the point of means. */
  lemma ResidualsOfLine(x: Series, mx: real, y: Series, my: real, a: real, c: real)
    requires |x| == |y| && IsMean(x, mx) && IsMean(y, my)
    ensures OnRaisedParabola(Residuals(x, y, a, (my - a * mx) + c),
                             Centred(y, my, y, my), Centred(x, mx, y, my), Centred(x, mx, x, mx),
                             a, |x| as real, c)
  {
    var u, v := Dev(x, mx), Dev(y, my);
    var d := Less(v, a, u);
    LineErrors(x, mx, y, my, a, c);
    DotLess(v, a, u, |x|);
    FlatErrors(x, mx, y, my, a);
    RaisedErrors(d, c);
  }

  lemma RaisedErrors(d: Series, c: real)
    requires Total(d) == 0.0
    ensures IsRaised(Dot(Dev(d, c), Dev(d, c), |d|), Dot(d, d, |d|), |d| as real, c)
  {
    var e := Dev(d, c);
    DotDev(d, c, e, |d|);
    SumDev(d, c, |d|);
    DotSwap(d, e, |d|);
    DotDev(d, c, d, |d|);
    assert c * Sum(e, |d|) == -(|d| as real * (c * c)) by {
      assert Sum(e, |d|) == -(|d| as real * c);
    }
  }

  lemma FlatErrors(x: Series, mx: real, y: Series, my: real, a: real)
    requires |x| == |y| && IsMean(x, mx) && IsMean(y, my)
    ensures Total(Less(Dev(y, my), a, Dev(x, mx))) == 0.0
  {
    SumLess(Dev(y, my), a, Dev(x, mx), |x|);
    DeviationsCancel(x, mx);
    DeviationsCancel(y, my);
  }

  lemma LineErrors(x: Series, mx: real, y: Series, my: real, a: real, c: real)
    requires |x| == |y|
    ensures Errors(x, y, a, (my - a * mx) + c) == Dev(Less(Dev(y, my), a, Dev(x, mx)), c)
  {
    var l, r := Errors(x, y, a, (my - a * mx) + c), Dev(Less(Dev(y, my), a, Dev(x, mx)), c);
    forall i | 0 <= i < |x|
      ensures l[i] == r[i]
    {
      PointError(x[i], y[i], a, mx, my, c);
    }
  }

  lemma PointError(x: real, y: real, a: real, mx: real, my: real, c: real)
    ensures y - (a * x + ((my - a * mx) + c)) == ((y - my) - a * (x - mx)) - c
  {
  }
}
