/**
 * `calculateMetrics` of pages/api/predict.js: mean absolute error, the mean squared error
 * whose square root is the RMSE, and R^2 = 1 - SS_res / SS_tot, each a `reduce` over the
 * series starting from 0.
 */
module Metrics {
  import opened Series

  /** The metrics of one series; the RMSE is the square root of `meanSquaredError`. */
  datatype ErrorMetrics = ErrorMetrics(meanSquaredError: real, mae: real, r2: real)

  /** `xs.reduce((sum, x) => sum + x, 0)`, summing from the left. */
  function Sum(xs: seq<real>): real
  {
    if |xs| == 0 then 0.0 else Sum(xs[..|xs| - 1]) + xs[|xs| - 1]
  }

  function Square(x: real): real
  {
    x * x
  }

  function Actuals(series: seq<Point>): seq<real>
  {
    seq(|series|, i requires 0 <= i < |series| => series[i].actual)
  }

  /** `Math.pow(pred - actuals[i], 2)` at every position. */
  function SquaredErrors(series: seq<Point>): seq<real>
  {
    seq(|series|, i requires 0 <= i < |series| => Square(series[i].predicted - series[i].actual))
  }

  /** `Math.abs(pred - actuals[i])` at every position. */
  function AbsoluteErrors(series: seq<Point>): seq<real>
  {
    seq(|series|, i requires 0 <= i < |series| => Abs(series[i].predicted - series[i].actual))
  }

  /** `Math.pow(actuals[i] - pred, 2)` at every position. */
  function Residuals(series: seq<Point>): seq<real>
  {
    seq(|series|, i requires 0 <= i < |series| => Square(series[i].actual - series[i].predicted))
  }

  function MeanActual(series: seq<Point>): real
    requires |series| > 0
  {
    Sum(Actuals(series)) / |series| as real
  }

  /** `Math.pow(val - meanActual, 2)` at every position. */
  function Deviations(series: seq<Point>): seq<real>
    requires |series| > 0
  {
    var mean := MeanActual(series);
    seq(|series|, i requires 0 <= i < |series| => Square(series[i].actual - mean))
  }

  /** SS_tot, the total sum of squares of the actual values about their mean. */
  function SsTotal(series: seq<Point>): real
    requires |series| > 0
  {
    Sum(Deviations(series))
  }

  /** SS_res, the residual sum of squares. */
  function SsResidual(series: seq<Point>): real
  {
    Sum(Residuals(series))
  }

  /**
   * The metrics of a series. The source divides by the length and by SS_tot without a
   * guard, so both must be non-zero here.
   */
  function CalculateMetrics(series: seq<Point>): (m: ErrorMetrics)
    requires |series| > 0 && SsTotal(series) != 0.0
    ensures m.meanSquaredError >= 0.0 && m.mae >= 0.0 && m.r2 <= 1.0
    ensures SsResidual(series) == |series| as real * m.meanSquaredError
  {
    var n := |series| as real;
    var m := ErrorMetrics(Sum(SquaredErrors(series)) / n,
                          Sum(AbsoluteErrors(series)) / n,
                          1.0 - SsResidual(series) / SsTotal(series));
    ErrorsAreNonNegative(series);
    TotalSumOfSquaresIsZero(series);
    QuotientNonNegative(Sum(SquaredErrors(series)), n);
    QuotientNonNegative(Sum(AbsoluteErrors(series)), n);
    QuotientNonNegative(SsResidual(series), SsTotal(series));
    m
  }

  lemma QuotientNonNegative(a: real, b: real)
    requires a >= 0.0 && b > 0.0
    ensures a / b >= 0.0 && b * (a / b) == a
  {
  }

  /** Every term of the error sums is non-negative, and SS_res is the sum of squared errors. */
  lemma ErrorsAreNonNegative(series: seq<Point>)
    ensures Sum(SquaredErrors(series)) >= 0.0 && Sum(AbsoluteErrors(series)) >= 0.0
    ensures SsResidual(series) == Sum(SquaredErrors(series))
  {
    forall i | 0 <= i < |series|
      ensures SquaredErrors(series)[i] == Residuals(series)[i] >= 0.0
    {
      var d := series[i].predicted - series[i].actual;
      SquareIsZero(d);
      assert Square(d) == Square(-d);
    }
    assert SquaredErrors(series) == Residuals(series);
    SumOfNonNegatives(SquaredErrors(series));
    SumOfNonNegatives(AbsoluteErrors(series));
  }

  /** A sum of non-negative terms is non-negative. */
  lemma {:induction false} SumOfNonNegatives(xs: seq<real>)
    requires forall i :: 0 <= i < |xs| ==> xs[i] >= 0.0
    ensures Sum(xs) >= 0.0
  {
    if |xs| > 0 {
      SumOfNonNegatives(xs[..|xs| - 1]);
    }
  }

  /** A sum of non-negative terms is zero exactly when every term is zero. */
  lemma {:induction false} SumOfNonNegativesIsZero(xs: seq<real>)
    requires forall i :: 0 <= i < |xs| ==> xs[i] >= 0.0
    ensures Sum(xs) == 0.0 <==> forall i :: 0 <= i < |xs| ==> xs[i] == 0.0
  {
    if |xs| > 0 {
      var init := xs[..|xs| - 1];
      SumOfNonNegativesIsZero(init);
      SumOfNonNegatives(init);
      assert forall i :: 0 <= i < |init| ==> init[i] == xs[i];
    }
  }

  /** The sum of n copies of c is n * c. */
  lemma {:induction false} SumOfConstant(xs: seq<real>, c: real)
    requires forall i :: 0 <= i < |xs| ==> xs[i] == c
    ensures Sum(xs) == |xs| as real * c
  {
    if |xs| > 0 {
      SumOfConstant(xs[..|xs| - 1], c);
    }
  }

  /** A square is non-negative, and zero only for zero. */
  lemma SquareIsZero(x: real)
    ensures Square(x) >= 0.0
    ensures Square(x) == 0.0 <==> x == 0.0
  {
    ProductFacts(x, Square(x));
  }

  lemma ProductFacts(x: real, s: real)
    requires s == x * x
    ensures s >= 0.0
    ensures x != 0.0 ==> s > 0.0
    ensures x == 0.0 ==> s == 0.0
  {
    if x > 0.0 {
      ProductOfPositives(x, x, s);
    } else if x < 0.0 {
      ProductOfPositives(-x, -x, s);
    }
  }

  lemma ProductOfPositives(x: real, y: real, s: real)
    requires x > 0.0 && y > 0.0 && s == x * y
    ensures s > 0.0
  {
  }

  /**
   * An exact prediction and only an exact prediction scores no squared error, no absolute
   * error and R^2 = 1.
   */
  lemma PerfectPredictionMetrics(series: seq<Point>)
    requires |series| > 0 && SsTotal(series) != 0.0
    ensures var m := CalculateMetrics(series);
            (forall i :: 0 <= i < |series| ==> series[i].predicted == series[i].actual)
            <==> m.meanSquaredError == 0.0 && m.mae == 0.0 && m.r2 == 1.0
  {
    var m := CalculateMetrics(series);
    var se, ae, res := SquaredErrors(series), AbsoluteErrors(series), Residuals(series);
    forall i | 0 <= i < |series|
      ensures se[i] >= 0.0 && (se[i] == 0.0 <==> series[i].predicted == series[i].actual)
      ensures res[i] >= 0.0 && (res[i] == 0.0 <==> series[i].predicted == series[i].actual)
      ensures ae[i] >= 0.0 && (ae[i] == 0.0 <==> series[i].predicted == series[i].actual)
    {
      SquareIsZero(series[i].predicted - series[i].actual);
      SquareIsZero(series[i].actual - series[i].predicted);
    }
    SumOfNonNegativesIsZero(se);
    SumOfNonNegativesIsZero(ae);
    SumOfNonNegativesIsZero(res);
    var n := |series| as real;
    assert m.meanSquaredError == 0.0 <==> Sum(se) == 0.0;
    assert m.mae == 0.0 <==> Sum(ae) == 0.0;
    assert m.r2 == 1.0 <==> SsResidual(series) == 0.0;
  }

  /** Predicting the mean of the actual values everywhere scores R^2 = 0. */
  lemma MeanPredictionScoresZero(series: seq<Point>)
    requires |series| > 0 && SsTotal(series) != 0.0
    requires forall i :: 0 <= i < |series| ==> series[i].predicted == MeanActual(series)
    ensures CalculateMetrics(series).r2 == 0.0
  {
    assert Residuals(series) == Deviations(series);
  }

  /** SS_tot is zero exactly when every actual value is the same. */
  lemma TotalSumOfSquaresIsZero(series: seq<Point>)
    requires |series| > 0
    ensures SsTotal(series) >= 0.0
    ensures SsTotal(series) == 0.0
            <==> forall i :: 0 <= i < |series| ==> series[i].actual == series[0].actual
  {
    DeviationsAreNonNegative(series);
    var dev := Deviations(series);
    SumOfNonNegativesIsZero(dev);
    SumOfNonNegatives(dev);
    if forall i :: 0 <= i < |series| ==> series[i].actual == series[0].actual {
      MeanOfConstant(series);
    }
  }

  /** Each squared deviation is non-negative and zero exactly at the mean. */
  lemma DeviationsAreNonNegative(series: seq<Point>)
    requires |series| > 0
    ensures forall i :: 0 <= i < |series| ==>
              Deviations(series)[i] >= 0.0 &&
              (Deviations(series)[i] == 0.0 <==> series[i].actual == MeanActual(series))
  {
    forall i | 0 <= i < |series|
      ensures Deviations(series)[i] >= 0.0
      ensures Deviations(series)[i] == 0.0 <==> series[i].actual == MeanActual(series)
    {
      SquareIsZero(series[i].actual - MeanActual(series));
    }
  }

  /** The mean of a constant series is that constant. */
  lemma MeanOfConstant(series: seq<Point>)
    requires |series| > 0
    requires forall i :: 0 <= i < |series| ==> series[i].actual == series[0].actual
    ensures MeanActual(series) == series[0].actual
  {
    SumOfConstant(Actuals(series), series[0].actual);
    CancelFactor(|series| as real, series[0].actual, Sum(Actuals(series)));
  }

  lemma CancelFactor(n: real, c: real, total: real)
    requires n > 0.0 && total == n * c
    ensures total / n == c
  {
  }
}
