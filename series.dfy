/**
 * The synthetic series behind both prediction endpoints: `generateBaseData` and
 * `generatePredictions`, which pages/api/predict.js and pages/api/predictAll.js define
 * with the same text. `Math.sin` is the parameter `sin`; where a property needs the
 * range of the sine it asks for `SineBounded(sin)`.
 */
module Series {
  /** One row of base data: its position and the base charge at that position. */
  datatype BasePoint = BasePoint(index: nat, base: real)

  /** One row of a prediction series. */
  datatype Point = Point(index: nat, actual: real, predicted: real)

  /** Both handlers generate `generateBaseData(50)`. */
  const SeriesLength: nat := 50

  /** `Math.abs`. */
  function Abs(x: real): real
  {
    if x < 0.0 then -x else x
  }

  /** What the model needs of `Math.sin`: every value lies in [-1, 1]. */
  ghost predicate SineBounded(sin: real -> real)
  {
    forall x :: -1.0 <= sin(x) <= 1.0
  }

  /** `10000 + sin(i * 0.1) * 5000 + i * 1000`: a rising trend with a slow oscillation. */
  function BaseCharge(i: nat, sin: real -> real): real
  {
    10000.0 + sin(i as real * 0.1) * 5000.0 + i as real * 1000.0
  }

  /** `Array.from({ length }, (_, index) => ({ index, base }))`. */
  function GenerateBaseData(length: nat, sin: real -> real): (data: seq<BasePoint>)
    ensures |data| == length
    ensures forall i :: 0 <= i < length ==> data[i].index == i
  {
    seq(length, i requires 0 <= i < length => BasePoint(i, BaseCharge(i, sin)))
  }

  /** The frequency of the prediction wobble: `n * 0.01 + lr + md * 0.1`. */
  function Factor(nEstimators: real, learningRate: real, maxDepth: real): real
  {
    nEstimators * 0.01 + learningRate + maxDepth * 0.1
  }

  /** `actual * (0.8 + (sin(index * factor) * 0.2 + 0.2))`. */
  function Predicted(actual: real, index: nat, factor: real, sin: real -> real): real
  {
    actual * (0.8 + (sin(index as real * factor) * 0.2 + 0.2))
  }

  /** `baseData.map(({ index, base }) => ({ index, actual: base, predicted }))`. */
  function GeneratePredictions(base: seq<BasePoint>, nEstimators: real, learningRate: real,
                               maxDepth: real, sin: real -> real): (series: seq<Point>)
    ensures |series| == |base|
    ensures forall i :: 0 <= i < |base| ==>
              series[i].index == base[i].index && series[i].actual == base[i].base
  {
    var factor := Factor(nEstimators, learningRate, maxDepth);
    seq(|base|, i requires 0 <= i < |base| =>
      Point(base[i].index, base[i].base, Predicted(base[i].base, base[i].index, factor, sin)))
  }

  /** The base charge at position i is at least 5000 + 1000 i, and at most 15000 + 1000 i. */
  lemma BaseChargeBounds(i: nat, sin: real -> real)
    requires SineBounded(sin)
    ensures 5000.0 + i as real * 1000.0 <= BaseCharge(i, sin) <= 15000.0 + i as real * 1000.0
  {
    assert -1.0 <= sin(i as real * 0.1) <= 1.0;
  }

  /** A prediction is the actual value scaled by 1 + 0.2 sin(...), so within 20% of it. */
  lemma PredictedWithinBand(actual: real, index: nat, factor: real, sin: real -> real)
    requires SineBounded(sin) && actual >= 0.0
    ensures Predicted(actual, index, factor, sin)
         == actual * (1.0 + 0.2 * sin(index as real * factor))
    ensures 0.8 * actual <= Predicted(actual, index, factor, sin) <= 1.2 * actual
  {
    var s := sin(index as real * factor);
    assert -1.0 <= s <= 1.0;
    assert actual * (1.0 + 0.2 * s) - 0.8 * actual == 0.2 * actual * (1.0 + s);
    assert 1.2 * actual - actual * (1.0 + 0.2 * s) == 0.2 * actual * (1.0 - s);
  }

  /**
   * Every row of a generated series: its index is its position, its actual value is the
   * base charge there whatever the parameters, and its prediction lies in
   * [0.8 actual, 1.2 actual].
   */
  lemma GeneratedRow(length: nat, nEstimators: real, learningRate: real, maxDepth: real,
                     sin: real -> real, i: nat)
    requires SineBounded(sin) && i < length
    ensures var row := GeneratePredictions(GenerateBaseData(length, sin), nEstimators,
                                           learningRate, maxDepth, sin)[i];
            && row.index == i
            && row.actual == BaseCharge(i, sin)
            && 0.8 * row.actual <= row.predicted <= 1.2 * row.actual
  {
    BaseChargeBounds(i, sin);
    PredictedWithinBand(BaseCharge(i, sin), i, Factor(nEstimators, learningRate, maxDepth), sin);
  }
}
