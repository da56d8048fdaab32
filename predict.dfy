/**
 * The handler of pages/api/predict.js: a POST carrying the three hyperparameters is
 * answered with a 50-point synthetic series and its error metrics; any other method
 * with 405.
 */
module Predict {
  import opened Wrappers
  import opened Series
  import opened Metrics

  /** The JSON body of a request: `{ n_estimators, learning_rate, max_depth }`. */
  datatype Body = Body(nEstimators: real, learningRate: real, maxDepth: real)

  /**
   * A request; `body` is `None` when destructuring the body throws: `req.json()` rejects
   * (the body is not JSON) or yields `null`.
   */
  datatype Request = Request(verb: string, body: Option<Body>)

  /** 405, 500 with the error message, or 200 with the series and its metrics. */
  datatype Response =
    | MethodNotAllowed
    | ServerError
    | Predicted(predictions: seq<Point>, metrics: ErrorMetrics)

  /**
   * A series generated from at least 12 base points never has constant actual values:
   * the base charge at position 11 exceeds the one at position 0, so SS_tot is positive
   * and `calculateMetrics` never divides by zero on it.
   */
  lemma GeneratedSeriesHasSpread(length: nat, nEstimators: real, learningRate: real,
                                 maxDepth: real, sin: real -> real)
    requires SineBounded(sin) && length >= 12
    ensures SsTotal(GeneratePredictions(GenerateBaseData(length, sin), nEstimators,
                                        learningRate, maxDepth, sin)) > 0.0
  {
    var series := GeneratePredictions(GenerateBaseData(length, sin), nEstimators,
                                      learningRate, maxDepth, sin);
    BaseChargeBounds(0, sin);
    BaseChargeBounds(11, sin);
    assert series[11].actual > series[0].actual;
    TotalSumOfSquaresIsZero(series);
  }

  /**
   * The whole handler. The status is 405 exactly for a verb other than POST and 500
   * exactly for a POST whose body cannot be destructured; otherwise the series is the one
   * generated from the body's three parameters: 50 rows indexed by position whose
   * predictions lie within 20% of the actual values, and the metrics are those of that
   * series.
   */
  function HandlePredict(req: Request, sin: real -> real): (resp: Response)
    requires SineBounded(sin)
    ensures resp.MethodNotAllowed? <==> req.verb != "POST"
    ensures resp.ServerError? <==> req.verb == "POST" && req.body.None?
    ensures resp.Predicted? ==>
              && |resp.predictions| == SeriesLength
              && (forall i :: 0 <= i < SeriesLength ==>
                    && resp.predictions[i].index == i
                    && resp.predictions[i].actual == BaseCharge(i, sin)
                    && 0.8 * resp.predictions[i].actual <= resp.predictions[i].predicted
                    && resp.predictions[i].predicted <= 1.2 * resp.predictions[i].actual)
              && SsTotal(resp.predictions) > 0.0
              && resp.metrics == CalculateMetrics(resp.predictions)
    ensures resp.Predicted? ==>
              resp.predictions == GeneratePredictions(GenerateBaseData(SeriesLength, sin),
                                                      req.body.value.nEstimators,
                                                      req.body.value.learningRate,
                                                      req.body.value.maxDepth, sin)
  {
    if req.verb != "POST" then
      MethodNotAllowed
    else if req.body.None? then
      ServerError
    else
      var b := req.body.value;
      var series := GeneratePredictions(GenerateBaseData(SeriesLength, sin), b.nEstimators,
                                        b.learningRate, b.maxDepth, sin);
      GeneratedSeriesHasSpread(SeriesLength, b.nEstimators, b.learningRate, b.maxDepth, sin);
      assert forall i :: 0 <= i < SeriesLength ==>
               && series[i].index == i
               && series[i].actual == BaseCharge(i, sin)
               && 0.8 * series[i].actual <= series[i].predicted <= 1.2 * series[i].actual
      by {
        forall i | 0 <= i < SeriesLength
          ensures && series[i].index == i
                  && series[i].actual == BaseCharge(i, sin)
                  && 0.8 * series[i].actual <= series[i].predicted <= 1.2 * series[i].actual
        {
          GeneratedRow(SeriesLength, b.nEstimators, b.learningRate, b.maxDepth, sin, i);
        }
      }
      Predicted(series, CalculateMetrics(series))
  }
}
