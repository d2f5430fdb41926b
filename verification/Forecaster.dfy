/** Ordinary least squares over the most recent samples, in exact real arithmetic up to the final rounding. */
module Forecaster {
  import opened Prelude
  import opened RingBuffers

  const FORECAST_WINDOW := 60
  const MIN_SAMPLES := 3
  const FLAT_SLOPE_EPSILON := 0.01

  datatype Sample = Sample(timestampMs: int, utilisation: real)

  /** `Math.round(x * 10^dp) / 10^dp` for four and two decimals: halves go up. */
  function Round4(x: real): (r: real)
    ensures AbsR(r - x) <= 0.00005
  {
    (x * 10000.0 + 0.5).Floor as real / 10000.0
  }

  function Round2(x: real): (r: real)
    ensures AbsR(r - x) <= 0.005
  {
    (x * 100.0 + 0.5).Floor as real / 100.0
  }

  datatype Fit = Fit(slope: real, intercept: real, r2: real, sampleCount: nat, spanMinutes: real)

  function Minutes(ps: seq<Sample>): (xs: seq<real>)
    ensures |xs| == |ps|
    ensures forall i :: 0 <= i < |ps| ==> xs[i] == (ps[i].timestampMs - ps[0].timestampMs) as real / 60000.0
  {
    seq(|ps|, i requires 0 <= i < |ps| => (ps[i].timestampMs - ps[0].timestampMs) as real / 60000.0)
  }

  function Utilisations(ps: seq<Sample>): (ys: seq<real>)
    ensures |ys| == |ps| && forall i :: 0 <= i < |ps| ==> ys[i] == ps[i].utilisation
  {
    seq(|ps|, i requires 0 <= i < |ps| => ps[i].utilisation)
  }

  function Sum(v: seq<real>): real {
    if v == [] then 0.0 else Sum(v[..|v| - 1]) + v[|v| - 1]
  }

  function Dot(u: seq<real>, v: seq<real>): real
    requires |u| == |v|
  {
    if u == [] then 0.0 else Dot(u[..|u| - 1], v[..|v| - 1]) + Times(u[|u| - 1], v[|v| - 1])
  }

  /** The values less a constant. */
  function Shift(v: seq<real>, c: real): (r: seq<real>)
    ensures |r| == |v| && forall i :: 0 <= i < |v| ==> r[i] == v[i] - c
  {
    seq(|v|, i requires 0 <= i < |v| => v[i] - c)
  }

  /** The values of the line `a + b * x`. */
  function Affine(xs: seq<real>, a: real, b: real): (r: seq<real>)
    ensures |r| == |xs| && forall i :: 0 <= i < |xs| ==> r[i] == a + Times(b, xs[i])
  {
    seq(|xs|, i requires 0 <= i < |xs| => a + Times(b, xs[i]))
  }

  function Sub(u: seq<real>, v: seq<real>): (r: seq<real>)
    requires |u| == |v|
    ensures |r| == |u| && forall i :: 0 <= i < |u| ==> r[i] == u[i] - v[i]
  {
    seq(|u|, i requires 0 <= i < |u| => u[i] - v[i])
  }

  /** What the line `a + b * x` leaves unexplained. */
  function Residuals(xs: seq<real>, ys: seq<real>, a: real, b: real): (r: seq<real>)
    requires |xs| == |ys|
    ensures |r| == |xs|
  {
    Sub(ys, Affine(xs, a, b))
  }

  /** Residual sum of squares of the line `a + b * x`. */
  function Rss(xs: seq<real>, ys: seq<real>, a: real, b: real): real
    requires |xs| == |ys|
  {
    Dot(Residuals(xs, ys, a, b), Residuals(xs, ys, a, b))
  }

  // ---------------------------------------------------------------------------
  // Algebra of the sums
  // ---------------------------------------------------------------------------

  lemma {:induction false} SquareOfDifference(p: real, q: real)
    ensures Times(p - q, p - q) == Times(p, p) - 2.0 * Times(p, q) + Times(q, q)
  {
  }

  lemma {:induction false} DotSub(r: seq<real>, w: seq<real>)
    requires |r| == |w|
    ensures Dot(Sub(r, w), Sub(r, w)) == Dot(r, r) - 2.0 * Dot(r, w) + Dot(w, w)
  {
    if r != [] {
      var n := |r| - 1;
      DotSub(r[..n], w[..n]);
      assert Sub(r, w)[..n] == Sub(r[..n], w[..n]);
      SquareOfDifference(r[n], w[n]);
    }
  }

  lemma {:induction false} DotSubLeft(u: seq<real>, v: seq<real>, w: seq<real>)
    requires |u| == |v| == |w|
    ensures Dot(Sub(u, v), w) == Dot(u, w) - Dot(v, w)
  {
    if u != [] {
      var n := |u| - 1;
      DotSubLeft(u[..n], v[..n], w[..n]);
      assert Sub(u, v)[..n] == Sub(u[..n], v[..n]);
      TimesSum(u[n] - v[n], v[n], w[n]);
    }
  }

  lemma {:induction false} DotCommutes(u: seq<real>, v: seq<real>)
    requires |u| == |v|
    ensures Dot(u, v) == Dot(v, u)
  {
    if u != [] {
      DotCommutes(u[..|u| - 1], v[..|v| - 1]);
    }
  }

  lemma {:induction false} AffineStep(r: real, c: real, e: real, x: real, s: real, d: real)
    ensures Times(c, s + r) == Times(c, s) + Times(c, r)
    ensures Times(e, d + Times(r, x)) == Times(e, d) + Times(e, Times(r, x))
    ensures Times(r, c + Times(e, x)) == Times(c, r) + Times(e, Times(r, x))
  {
  }

  lemma {:induction false} DotAffine(r: seq<real>, xs: seq<real>, c: real, e: real)
    requires |r| == |xs|
    ensures Dot(r, Affine(xs, c, e)) == Times(c, Sum(r)) + Times(e, Dot(r, xs))
  {
    if r != [] {
      var n := |r| - 1;
      DotAffine(r[..n], xs[..n], c, e);
      assert Affine(xs, c, e)[..n] == Affine(xs[..n], c, e);
      AffineStep(r[n], c, e, xs[n], Sum(r[..n]), Dot(r[..n], xs[..n]));
    }
  }

  lemma {:induction false} ProductPositive(x: real, y: real)
    requires x > 0.0 && y > 0.0
    ensures Times(x, y) > 0.0
  {
  }

  lemma {:induction false} ProductWithZero(x: real, y: real)
    requires x == 0.0
    ensures Times(x, y) == 0.0
  {
  }

  lemma {:induction false} SquarePositive(x: real)
    ensures Times(x, x) >= 0.0
    ensures Times(x, x) == 0.0 <==> x == 0.0
  {
    if x > 0.0 {
      ProductPositive(x, x);
    } else if x < 0.0 {
      ProductPositive(-x, -x);
      assert Times(x, x) == Times(-x, -x);
    } else {
      ProductWithZero(x, x);
    }
  }

  lemma {:induction false} DotPositive(u: seq<real>)
    ensures Dot(u, u) >= 0.0
    ensures Dot(u, u) == 0.0 <==> forall i :: 0 <= i < |u| ==> u[i] == 0.0
  {
    if u != [] {
      DotPositive(u[..|u| - 1]);
      SquarePositive(u[|u| - 1]);
      assert forall i :: 0 <= i < |u| - 1 ==> u[..|u| - 1][i] == u[i];
    }
  }

  lemma {:induction false} SumSub(u: seq<real>, v: seq<real>)
    requires |u| == |v|
    ensures Sum(Sub(u, v)) == Sum(u) - Sum(v)
  {
    if u != [] {
      SumSub(u[..|u| - 1], v[..|v| - 1]);
      assert Sub(u, v)[..|u| - 1] == Sub(u[..|u| - 1], v[..|v| - 1]);
    }
  }

  lemma {:induction false} SumAffine(xs: seq<real>, c: real, e: real)
    ensures Sum(Affine(xs, c, e)) == Times(c, |xs| as real) + Times(e, Sum(xs))
  {
    if xs != [] {
      var n := |xs| - 1;
      SumAffine(xs[..n], c, e);
      assert Affine(xs, c, e)[..n] == Affine(xs[..n], c, e);
      AffineStep(1.0, c, e, xs[n], n as real, Sum(xs[..n]));
      assert Times(1.0, xs[n]) == xs[n];
    }
  }

  // ---------------------------------------------------------------------------
  // The normal equations make a least-squares line
  // ---------------------------------------------------------------------------

  /** The line is the unique minimiser of the residual sum of squares over all lines. */
  ghost predicate IsLeastSquares(xs: seq<real>, ys: seq<real>, a: real, b: real)
    requires |xs| == |ys|
  {
    forall a', b' ::
      && Rss(xs, ys, a, b) <= Rss(xs, ys, a', b')
      && (Rss(xs, ys, a, b) == Rss(xs, ys, a', b') ==> a == a' && b == b')
  }

  lemma {:induction false} OtherResidual(y: real, x: real, a: real, b: real, a': real, b': real)
    ensures y - (a' + Times(b', x)) == (y - (a + Times(b, x))) - ((a' - a) + Times(b' - b, x))
  {
  }

  /** Any other line pays, on top, the squared distance between the two lines at the samples. */
  lemma {:induction false} OtherLinePays(xs: seq<real>, ys: seq<real>, a: real, b: real, a': real, b': real)
    requires |xs| == |ys|
    requires Sum(Residuals(xs, ys, a, b)) == 0.0 && Dot(Residuals(xs, ys, a, b), xs) == 0.0
    ensures var w := Affine(xs, a' - a, b' - b);
      Rss(xs, ys, a', b') == Rss(xs, ys, a, b) + Dot(w, w)
  {
    var r, w := Residuals(xs, ys, a, b), Affine(xs, a' - a, b' - b);
    forall i | 0 <= i < |xs|
      ensures Residuals(xs, ys, a', b')[i] == Sub(r, w)[i]
    {
      OtherResidual(ys[i], xs[i], a, b, a', b');
    }
    assert Residuals(xs, ys, a', b') == Sub(r, w);
    DotSub(r, w);
    DotAffine(r, xs, a' - a, b' - b);
  }

  lemma {:induction false} TwoPointsPinLine(c: real, e: real, x: real, x': real)
    requires c + Times(e, x) == 0.0 && c + Times(e, x') == 0.0 && x != x'
    ensures c == 0.0 && e == 0.0
  {
    assert e * (x - x') == 0.0;
  }

  lemma {:induction false} NormalIsLeastSquares(xs: seq<real>, ys: seq<real>, a: real, b: real)
    requires |xs| == |ys|
    requires Sum(Residuals(xs, ys, a, b)) == 0.0 && Dot(Residuals(xs, ys, a, b), xs) == 0.0
    requires exists i :: 0 < i < |xs| && xs[i] != xs[0]
    ensures IsLeastSquares(xs, ys, a, b)
  {
    var i :| 0 < i < |xs| && xs[i] != xs[0];
    forall a', b'
      ensures Rss(xs, ys, a, b) <= Rss(xs, ys, a', b')
      ensures Rss(xs, ys, a, b) == Rss(xs, ys, a', b') ==> a == a' && b == b'
    {
      var w := Affine(xs, a' - a, b' - b);
      OtherLinePays(xs, ys, a, b, a', b');
      DotPositive(w);
      if Dot(w, w) == 0.0 {
        assert w[i] == 0.0 && w[0] == 0.0;
        TwoPointsPinLine(a' - a, b' - b, xs[i], xs[0]);
      }
    }
  }

  /** With slope `sxy / sxx` through the means, the residuals sum to zero and are orthogonal to the times. */
  lemma {:induction false} FittedIsNormal(xs: seq<real>, ys: seq<real>, mx: real, my: real, b: real)
    requires |xs| == |ys| > 0
    requires Times(mx, |xs| as real) == Sum(xs) && Times(my, |xs| as real) == Sum(ys)
    requires Dot(Shift(xs, mx), Shift(ys, my)) == Times(b, Dot(Shift(xs, mx), Shift(xs, mx)))
    ensures var r := Residuals(xs, ys, my - Times(b, mx), b);
      Sum(r) == 0.0 && Dot(r, xs) == 0.0
  {
    var a := my - Times(b, mx);
    var r, u, v := Residuals(xs, ys, a, b), Shift(xs, mx), Shift(ys, my);
    SumSub(ys, Affine(xs, a, b));
    SumAffine(xs, a, b);
    InterceptCentres(my, b, mx, |xs| as real);
    ResidualsCentred(xs, ys, mx, my, b);
    DotSubLeft(v, Affine(u, 0.0, b), u);
    DotCommutes(Affine(u, 0.0, b), u);
    DotAffine(u, u, 0.0, b);
    DotCommutes(u, v);
    assert Dot(r, u) == 0.0;
    UnShift(xs, mx);
    DotAffine(r, u, mx, 1.0);
  }

  lemma {:induction false} InterceptCentres(my: real, b: real, mx: real, n: real)
    ensures Times(my - Times(b, mx), n) == Times(my, n) - Times(b, Times(mx, n))
  {
  }

  lemma {:induction false} UnShift(xs: seq<real>, m: real)
    ensures Affine(Shift(xs, m), m, 1.0) == xs
  {
  }

  lemma {:induction false} ResidualsCentred(xs: seq<real>, ys: seq<real>, mx: real, my: real, b: real)
    requires |xs| == |ys|
    ensures Residuals(xs, ys, my - Times(b, mx), b) == Sub(Shift(ys, my), Affine(Shift(xs, mx), 0.0, b))
  {
    forall i | 0 <= i < |xs|
      ensures Residuals(xs, ys, my - Times(b, mx), b)[i] == Sub(Shift(ys, my), Affine(Shift(xs, mx), 0.0, b))[i]
    {
      OtherResidual(ys[i], xs[i], my, 0.0, my - Times(b, mx), b);
      TimesDifference(b, xs[i], mx);
    }
  }

  lemma {:induction false} TimesDifference(b: real, x: real, m: real)
    ensures Times(b, x - m) == Times(b, x) - Times(b, m)
  {
  }

  /** Times coincide exactly when their spread about the mean is zero. */
  lemma {:induction false} NoSpreadMeansOneTime(ps: seq<Sample>)
    requires |ps| > 0
    ensures var xs := Minutes(ps);
      var u := Shift(xs, Mean(xs));
      && Dot(u, u) >= 0.0
      && (Dot(u, u) == 0.0 <==> !Spreads(ps))
  {
    var xs := Minutes(ps);
    var mx := Mean(xs);
    var u := Shift(xs, mx);
    DotPositive(u);
    if Dot(u, u) == 0.0 {
      forall i | 0 <= i < |ps|
        ensures ps[i].timestampMs == ps[0].timestampMs
      {
        assert u[i] == 0.0 && u[0] == 0.0;
        assert xs[i] == xs[0];
      }
    }
    if !Spreads(ps) {
      assert forall i :: 0 <= i < |xs| ==> xs[i] == 0.0;
      ConstantSum(xs);
      assert forall i :: 0 <= i < |xs| ==> u[i] == 0.0;
    }
  }

  lemma {:induction false} ConstantSum(v: seq<real>)
    requires forall i :: 0 <= i < |v| ==> v[i] == 0.0
    ensures Sum(v) == 0.0
  {
    if v != [] {
      ConstantSum(v[..|v| - 1]);
    }
  }

  /** The loop sums of the code, over a window already taken. */
  method Spread(xs: seq<real>, ys: seq<real>, meanX: real, meanY: real) returns (sxx: real, sxy: real)
    requires |xs| == |ys|
    ensures sxx == Dot(Shift(xs, meanX), Shift(xs, meanX))
    ensures sxy == Dot(Shift(xs, meanX), Shift(ys, meanY))
  {
    sxx, sxy := 0.0, 0.0;
    for i := 0 to |xs|
      invariant sxx == Dot(Shift(xs, meanX)[..i], Shift(xs, meanX)[..i])
      invariant sxy == Dot(Shift(xs, meanX)[..i], Shift(ys, meanY)[..i])
    {
      ghost var u, v := Shift(xs, meanX), Shift(ys, meanY);
      assert u[..i + 1][..i] == u[..i] && v[..i + 1][..i] == v[..i];
      var dx := xs[i] - meanX;
      sxx := sxx + Times(dx, dx);
      sxy := sxy + Times(dx, ys[i] - meanY);
    }
    assert Shift(xs, meanX)[..|xs|] == Shift(xs, meanX) && Shift(ys, meanY)[..|ys|] == Shift(ys, meanY);
  }

  method Scatter(xs: seq<real>, ys: seq<real>, meanY: real, intercept: real, slope: real)
    returns (ssTot: real, ssRes: real)
    requires |xs| == |ys|
    ensures ssTot == Dot(Shift(ys, meanY), Shift(ys, meanY))
    ensures ssRes == Rss(xs, ys, intercept, slope)
  {
    ssTot, ssRes := 0.0, 0.0;
    for i := 0 to |xs|
      invariant ssTot == Dot(Shift(ys, meanY)[..i], Shift(ys, meanY)[..i])
      invariant ssRes == Dot(Residuals(xs, ys, intercept, slope)[..i], Residuals(xs, ys, intercept, slope)[..i])
    {
      ghost var v, r := Shift(ys, meanY), Residuals(xs, ys, intercept, slope);
      assert v[..i + 1][..i] == v[..i] && r[..i + 1][..i] == r[..i];
      var predicted := intercept + Times(slope, xs[i]);
      ssTot := ssTot + Times(ys[i] - meanY, ys[i] - meanY);
      ssRes := ssRes + Times(ys[i] - predicted, ys[i] - predicted);
    }
    ghost var r := Residuals(xs, ys, intercept, slope);
    assert Shift(ys, meanY)[..|ys|] == Shift(ys, meanY) && r[..|ys|] == r;
  }

  function Mean(v: seq<real>): real
    requires v != []
  {
    Sum(v) / |v| as real
  }

  /** The coefficient of determination, clamped as the code clamps it. */
  function RSquared(ssRes: real, ssTot: real): real {
    if ssTot == 0.0 then 1.0 else MaxR(0.0, MinR(1.0, 1.0 - ssRes / ssTot))
  }

  /** On a least-squares line the clamp never acts. */
  lemma {:induction false} ClampNeverActs(ssRes: real, ssTot: real)
    requires 0.0 <= ssRes <= ssTot
    ensures ssTot != 0.0 ==> RSquared(ssRes, ssTot) == 1.0 - ssRes / ssTot
    ensures 0.0 <= RSquared(ssRes, ssTot) <= 1.0
  {
    if ssTot != 0.0 {
      assert 0.0 <= ssRes / ssTot <= 1.0;
    }
  }

  /** The samples carry at least two different times. */
  ghost predicate Spreads(ps: seq<Sample>) {
    exists i :: 0 <= i < |ps| && ps[i].timestampMs != ps[0].timestampMs
  }

  /** What the regression reports of a window: the line with this intercept and slope, to four decimals. */
  ghost predicate Reports(ps: seq<Sample>, fit: Fit, intercept: real, slope: real)
    requires ps != []
  {
    var xs, ys := Minutes(ps), Utilisations(ps);
    var ssTot := Dot(Shift(ys, Mean(ys)), Shift(ys, Mean(ys)));
    var ssRes := Rss(xs, ys, intercept, slope);
    && IsLeastSquares(xs, ys, intercept, slope)
    && 0.0 <= ssRes <= ssTot
    && fit.slope == Round4(slope) && fit.intercept == Round4(intercept)
    && fit.r2 == Round4(RSquared(ssRes, ssTot))
    && fit.sampleCount == |ps|
    && fit.spanMinutes == Round4((ps[|ps| - 1].timestampMs - ps[0].timestampMs) as real / 60000.0)
  }

  /** The report is of a least-squares line; there is only one when the times differ. */
  ghost predicate IsFit(ps: seq<Sample>, fit: Fit)
    requires ps != []
  {
    exists intercept, slope :: Reports(ps, fit, intercept, slope)
  }

  /**
   * `linearRegression`: the least-squares line over the last 60 samples, or null exactly when
   * there are fewer than three of them or they share one timestamp.
   */
  method LinearRegression(metrics: seq<Sample>) returns (fit: Option<Fit>)
    ensures var ps := LastN(metrics, 60);
      && (fit.Some? <==> |ps| >= 3 && Spreads(ps))
      && (fit.Some? ==> IsFit(ps, fit.value))
  {
    var points := LastN(metrics, FORECAST_WINDOW);
    if |points| < MIN_SAMPLES {
      return None;
    }
    fit := FitWindow(points);
  }

  method FitWindow(points: seq<Sample>) returns (fit: Option<Fit>)
    requires points != []
    ensures fit.Some? <==> Spreads(points)
    ensures fit.Some? ==> IsFit(points, fit.value)
  {
    hide Dot, Rss, Sum, Residuals, IsLeastSquares, RSquared, Round4, Mean, Times;
    var xs, ys := Minutes(points), Utilisations(points);
    var meanX, meanY := Mean(xs), Mean(ys);
    var sxx, sxy := Spread(xs, ys, meanX, meanY);
    NoSpreadMeansOneTime(points);
    if sxx == 0.0 {
      return None;
    }
    var slope := sxy / sxx;
    var intercept := meanY - Times(slope, meanX);
    FitIsOptimal(points, xs, ys, meanX, meanY, slope, sxx, sxy);
    var ssTot, ssRes := Scatter(xs, ys, meanY, intercept, slope);
    fit := Some(Fit(Round4(slope), Round4(intercept), Round4(RSquared(ssRes, ssTot)), |points|,
                    Round4(xs[|xs| - 1] - xs[0])));
    assert Reports(points, fit.value, intercept, slope);
  }

  lemma {:induction false} DivideBack(p: real, q: real)
    requires q != 0.0
    ensures Times(p / q, q) == p
  {
  }

  lemma {:induction false} FitIsOptimal(
    ps: seq<Sample>, xs: seq<real>, ys: seq<real>, mx: real, my: real, b: real, sxx: real, sxy: real)
    requires |ps| > 0 && xs == Minutes(ps) && ys == Utilisations(ps)
    requires mx == Mean(xs) && my == Mean(ys)
    requires sxx == Dot(Shift(xs, mx), Shift(xs, mx)) && sxy == Dot(Shift(xs, mx), Shift(ys, my))
    requires sxx != 0.0 && b == sxy / sxx
    ensures IsLeastSquares(xs, ys, my - Times(b, mx), b)
    ensures 0.0 <= Rss(xs, ys, my - Times(b, mx), b) <= Dot(Shift(ys, my), Shift(ys, my))
  {
    DivideBack(Sum(xs), |ps| as real);
    DivideBack(Sum(ys), |ps| as real);
    DivideBack(sxy, sxx);
    FittedIsNormal(xs, ys, mx, my, b);
    NoSpreadMeansOneTime(ps);
    var i :| 0 <= i < |ps| && ps[i].timestampMs != ps[0].timestampMs;
    assert xs[i] != xs[0];
    NormalIsLeastSquares(xs, ys, my - Times(b, mx), b);
    DotPositive(Residuals(xs, ys, my - Times(b, mx), b));
    FlatLine(xs, ys, my);
  }

  /** The horizontal line through the mean leaves the total sum of squares. */
  lemma {:induction false} FlatLine(xs: seq<real>, ys: seq<real>, my: real)
    requires |xs| == |ys|
    ensures Rss(xs, ys, my, 0.0) == Dot(Shift(ys, my), Shift(ys, my))
  {
    assert Residuals(xs, ys, my, 0.0) == Shift(ys, my);
  }

  /** A series that lies on a line is recovered: the unique minimiser is that line. */
  lemma {:induction false} LineIsRecovered(xs: seq<real>, ys: seq<real>, a: real, b: real, intercept: real, slope: real)
    requires |xs| == |ys| && ys == Affine(xs, a, b)
    requires IsLeastSquares(xs, ys, intercept, slope)
    ensures intercept == a && slope == b && Rss(xs, ys, intercept, slope) == 0.0
  {
    DotPositive(Residuals(xs, ys, a, b));
    DotPositive(Residuals(xs, ys, intercept, slope));
    assert forall i :: 0 <= i < |xs| ==> Residuals(xs, ys, a, b)[i] == 0.0;
    assert Rss(xs, ys, a, b) == 0.0;
  }

  /**
   * What is reported of samples on a line, a flat one included: that line to four decimals, and
   * a coefficient of determination of one.
   */
  lemma {:induction false} LineIsReported(ps: seq<Sample>, fit: Fit, a: real, b: real)
    requires ps != [] && IsFit(ps, fit)
    requires Utilisations(ps) == Affine(Minutes(ps), a, b)
    ensures fit.intercept == Round4(a) && fit.slope == Round4(b) && fit.r2 == 1.0
  {
    hide Dot, Sum, Round4, IsLeastSquares, Rss;
    var intercept, slope :| Reports(ps, fit, intercept, slope);
    LineIsRecovered(Minutes(ps), Utilisations(ps), a, b, intercept, slope);
    OneRounds();
  }

  lemma {:induction false} OneRounds()
    ensures Round4(1.0) == 1.0
  {
  }

  /** Reported figures are to the nearest ten-thousandth, halves up. */
  lemma {:induction false} Round4IsNearest(x: real)
    ensures -0.00005 < Round4(x) - x <= 0.00005
    ensures exists n :: Round4(x) == TenThousandths(n)
  {
    assert Round4(x) == TenThousandths((x * 10000.0 + 0.5).Floor);
  }

  function TenThousandths(n: int): real {
    n as real / 10000.0
  }

  /** `minutesTo`: null when the trajectory never gets there. */
  function MinutesTo(current: real, slope: real, target: real): Option<real> {
    if current >= target then Some(0.0)
    else if slope <= FLAT_SLOPE_EPSILON then None
    else Some(Round2((target - current) / slope))
  }

  lemma {:induction false} CrossingIsExact(current: real, slope: real, target: real, t: real)
    requires slope > 0.0
    ensures current + slope * t >= target <==> t >= (target - current) / slope
  {
    var m := (target - current) / slope;
    assert slope * m == target - current;
    assert slope * (t - m) == slope * t - slope * m;
    if t >= m {
      assert slope * (t - m) >= 0.0;
    } else {
      assert slope * (m - t) > 0.0;
    }
  }

  /**
   * The forecast is right about the line it is drawn on, to the two decimals it is reported
   * with: half a hundredth of a minute after the reported one the target is met, half a
   * hundredth before it, it is not.
   */
  lemma {:induction false} TargetIsMetThen(current: real, slope: real, target: real, t: real)
    requires MinutesTo(current, slope, target).Some? && current < target
    ensures var reported := MinutesTo(current, slope, target).value;
      && (t >= reported + 0.005 ==> current + slope * t >= target)
      && (t < reported - 0.005 ==> current + slope * t < target)
  {
    CrossingIsExact(current, slope, target, t);
  }

  /** No forecast is given exactly when the target lies ahead on a flat or falling line. */
  lemma {:induction false} NoForecastExactly(current: real, slope: real, target: real)
    ensures MinutesTo(current, slope, target).None? <==> current < target && slope <= 0.01
    ensures MinutesTo(current, slope, target).Some? ==> MinutesTo(current, slope, target).value >= 0.0
    ensures current >= target ==> MinutesTo(current, slope, target) == Some(0.0)
  {
    if current < target && slope > FLAT_SLOPE_EPSILON {
      assert slope * ((target - current) / slope) == target - current;
    }
  }
}
