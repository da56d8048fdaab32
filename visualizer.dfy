/**
 * The logic of components/ModelVisualizer.js: snapping requested parameters to the
 * nearest valid values, building and parsing cache keys, choosing the best model of a
 * loaded table and deciding whether the current parameters are that model's. The
 * component state that its effects overwrite is the class `ModelVisualizer`.
 *
 * The component reads `.predictions` and `.metrics` from every table entry, while the
 * table pages/api/predictAll.js sends holds bare series. Both shapes are kept: an
 * `Entry` is `Bare` (a series, as sent) or `Scored` (an object with predictions and
 * metrics, as read), and the lemmas at the end show what the bare shape leads to.
 */
module Visualizer {
  import opened Wrappers
  import opened Decimal
  import opened Keys
  import opened Series
  import PredictAll

  /** `validParams`. */
  const ValidNEstimators: seq<Dec> := [Dec(50, 0), Dec(100, 0), Dec(150, 0), Dec(200, 0)]
  const ValidLearningRates: seq<Dec> := [Dec(1, 2), Dec(5, 2), Dec(1, 1)]
  const ValidMaxDepths: seq<Dec> := [Dec(2, 0), Dec(3, 0), Dec(4, 0), Dec(5, 0)]

  /** The slider values, as JavaScript numbers. */
  datatype Params = Params(nEstimators: real, learningRate: real, maxDepth: real)

  const InitialParams: Params := Params(100.0, 0.05, 3.0)

  /** `${100}-${0.05}-${3}`, the key the loading effect looks up with the first params. */
  const InitialKey: string := KeyOf(Dec(100, 0), Dec(5, 2), Dec(3, 0))

  /** `Math.abs(d - value)`. */
  function Distance(d: Dec, value: real): real
  {
    Abs(Value(d) - value)
  }

  // ---------------------------------------------------------------- findNearestValue

  /**
   * The reduce of `findNearestValue` after the first n elements, for a distance `dist`
   * to the requested value: it starts from the first element and moves to `curr` only
   * when `curr` is strictly closer.
   */
  function NearestUpTo(valid: seq<Dec>, dist: Dec -> real, n: nat): Dec
    requires 1 <= n <= |valid|
  {
    if n == 1 then valid[0]
    else
      var prev := NearestUpTo(valid, dist, n - 1);
      var curr := valid[n - 1];
      if dist(curr) < dist(prev) then curr else prev
  }

  /**
   * Position j is the first of the first n elements at the least distance: every
   * earlier element is strictly farther and no element up to n is closer.
   */
  predicate FirstClosestIn(valid: seq<Dec>, dist: Dec -> real, j: int, n: int)
    requires n <= |valid|
  {
    && 0 <= j < n
    && (forall k :: 0 <= k < j ==> dist(valid[j]) < dist(valid[k]))
    && (forall k :: 0 <= k < n ==> dist(valid[j]) <= dist(valid[k]))
  }

  /** The position the reduce ends on: its accumulator is always `valid[NearestIndex(...)]`. */
  function NearestIndex(valid: seq<Dec>, dist: Dec -> real, n: nat): (j: nat)
    requires 1 <= n <= |valid|
    ensures j < n && NearestUpTo(valid, dist, n) == valid[j]
  {
    if n == 1 then 0
    else
      var prev := NearestIndex(valid, dist, n - 1);
      if dist(valid[n - 1]) < dist(valid[prev]) then n - 1 else prev
  }

  lemma {:induction false} NearestIndexIsFirstClosest(valid: seq<Dec>, dist: Dec -> real, n: nat)
    requires 1 <= n <= |valid|
    ensures FirstClosestIn(valid, dist, NearestIndex(valid, dist, n), n)
  {
    if n > 1 {
      NearestIndexIsFirstClosest(valid, dist, n - 1);
    }
  }

  /** The distance `Math.abs(curr - value)` as a function of the element. */
  function DistanceTo(value: real): Dec -> real
  {
    d => Distance(d, value)
  }

  predicate FirstClosest(value: real, valid: seq<Dec>, j: int)
  {
    FirstClosestIn(valid, DistanceTo(value), j, |valid|)
  }

  /**
   * `findNearestValue(value, validValues)`. A reduce without an initial value fails on
   * an empty array, so the list must be non-empty. The result is a member of the list
   * and no member is strictly closer to `value`.
   */
  function FindNearestValue(value: real, valid: seq<Dec>): (d: Dec)
    requires |valid| > 0
    ensures d in valid
    ensures forall k :: 0 <= k < |valid| ==> Distance(d, value) <= Distance(valid[k], value)
  {
    NearestIndexIsFirstClosest(valid, DistanceTo(value), |valid|);
    NearestUpTo(valid, DistanceTo(value), |valid|)
  }

  /** The snapped value is the first closest member of the list: ties go to the earlier one. */
  lemma NearestIsFirstClosest(value: real, valid: seq<Dec>)
    requires |valid| > 0
    ensures exists j :: FirstClosest(value, valid, j) && FindNearestValue(value, valid) == valid[j]
  {
    NearestIndexIsFirstClosest(valid, DistanceTo(value), |valid|);
    assert FirstClosest(value, valid, NearestIndex(valid, DistanceTo(value), |valid|));
  }

  /** At most one position is the first closest, so `FirstClosest` pins the result down. */
  lemma FirstClosestUnique(value: real, valid: seq<Dec>, j1: int, j2: int)
    requires FirstClosest(value, valid, j1) && FirstClosest(value, valid, j2)
    ensures j1 == j2
  {
    ClosestNoFarther(valid, DistanceTo(value), j1, j2);
    ClosestNoFarther(valid, DistanceTo(value), j2, j1);
  }

  lemma ClosestNoFarther(valid: seq<Dec>, dist: Dec -> real, j: int, k: int)
    requires FirstClosestIn(valid, dist, j, |valid|) && 0 <= k < |valid|
    ensures dist(valid[j]) <= dist(valid[k])
  {
  }

  /** An element strictly closer than every other element is the one chosen. */
  lemma StrictlyClosestWins(value: real, valid: seq<Dec>, w: int)
    requires 0 <= w < |valid|
    requires forall k :: 0 <= k < |valid| && k != w ==> Distance(valid[w], value) < Distance(valid[k], value)
    ensures FindNearestValue(value, valid) == valid[w]
  {
    NearestIsFirstClosest(value, valid);
    var j :| FirstClosest(value, valid, j) && FindNearestValue(value, valid) == valid[j];
    assert FirstClosest(value, valid, w);
    FirstClosestUnique(value, valid, j, w);
  }

  /** With distinct values, a value of the list snaps to itself. */
  lemma NearestOfMember(valid: seq<Dec>, k: int)
    requires DistinctValues(valid) && 0 <= k < |valid|
    ensures FindNearestValue(Value(valid[k]), valid) == valid[k]
  {
    forall i | 0 <= i < |valid| && i != k
      ensures Distance(valid[k], Value(valid[k])) < Distance(valid[i], Value(valid[k]))
    {
      if i < k {
        assert Value(valid[i]) != Value(valid[k]);
      } else {
        assert Value(valid[k]) != Value(valid[i]);
      }
    }
    StrictlyClosestWins(Value(valid[k]), valid, k);
  }

  /** Snapping twice is snapping once. */
  lemma NearestIdempotent(value: real, valid: seq<Dec>)
    requires DistinctValues(valid) && |valid| > 0
    ensures var d := FindNearestValue(value, valid);
            FindNearestValue(Value(d), valid) == d
  {
    var d := FindNearestValue(value, valid);
    var k :| 0 <= k < |valid| && valid[k] == d;
    NearestOfMember(valid, k);
  }

  // ---------------------------------------------------------------- keys

  /** The key of the snapped parameters, `${nearestN}-${nearestLR}-${nearestMD}`. */
  function SnappedKey(p: Params): string
  {
    KeyOf(FindNearestValue(p.nEstimators, ValidNEstimators),
          FindNearestValue(p.learningRate, ValidLearningRates),
          FindNearestValue(p.maxDepth, ValidMaxDepths))
  }

  /** The valid values of the component are the ranges the server loops over. */
  lemma ValidParamsAreServerRanges()
    ensures ValidNEstimators == PredictAll.Ranges.nEstimators
    ensures ValidLearningRates == PredictAll.Ranges.learningRates
    ensures ValidMaxDepths == PredictAll.Ranges.maxDepths
  {
  }

  /** Whatever the sliders say, the snapped key is one of the keys of the server's table. */
  lemma SnappedKeyInServerTable(p: Params, table: map<string, seq<Point>>, sin: real -> real)
    requires PredictAll.IsCrossTable(table, sin)
    ensures SnappedKey(p) in table
  {
    ValidParamsAreServerRanges();
    PredictAll.RangeKeyInCrossTable(table, sin, FindNearestValue(p.nEstimators, ValidNEstimators),
                                    FindNearestValue(p.learningRate, ValidLearningRates),
                                    FindNearestValue(p.maxDepth, ValidMaxDepths));
  }

  lemma ValidValues()
    ensures DistinctValues(ValidNEstimators) && DistinctValues(ValidLearningRates)
    ensures DistinctValues(ValidMaxDepths)
    ensures Value(ValidLearningRates[0]) == 0.01 && Value(ValidLearningRates[1]) == 0.05
    ensures Value(ValidLearningRates[2]) == 0.1
  {
    ValidParamsAreServerRanges();
    PredictAll.RangeValuesDistinct();
    assert Pow10(2) == 100 && Pow10(1) == 10;
  }

  /** The key looked up when the table arrives is the snapped key of the first params. */
  lemma InitialKeyIsSnapped()
    ensures InitialKey == SnappedKey(InitialParams)
  {
    ValidValues();
    assert Pow10(0) == 1 && Pow10(2) == 100;
    assert InitialParams.nEstimators == Value(ValidNEstimators[1]);
    assert InitialParams.learningRate == Value(ValidLearningRates[1]);
    assert InitialParams.maxDepth == Value(ValidMaxDepths[1]);
    NearestOfMember(ValidNEstimators, 1);
    NearestOfMember(ValidLearningRates, 1);
    NearestOfMember(ValidMaxDepths, 1);
  }

  // ---------------------------------------------------------------- table entries

  /** `{ rmse, mae, r2 }` as the component reads it. */
  datatype ClientMetrics = ClientMetrics(rmse: real, mae: real, r2: real)

  /** A table entry: a bare series as the server sends it, or the object the component expects. */
  datatype Entry =
    | Bare(series: seq<Point>)
    | Scored(predictions: seq<Point>, metrics: ClientMetrics)

  /** The entries of a JavaScript object: no key occurs twice. */
  predicate UniqueKeys(entries: seq<(string, Entry)>)
  {
    forall i, j :: 0 <= i < j < |entries| ==> entries[i].0 != entries[j].0
  }

  /** `allPredictions[key]`: the value stored under `key`. */
  function Lookup(entries: seq<(string, Entry)>, key: string): (r: Option<Entry>)
    ensures r.None? <==> forall i :: 0 <= i < |entries| ==> entries[i].0 != key
    ensures r.Some? ==> exists i :: 0 <= i < |entries| && entries[i] == (key, r.value)
  {
    if |entries| == 0 then None
    else if entries[0].0 == key then Some(entries[0].1)
    else
      var r := Lookup(entries[1..], key);
      assert forall i :: 1 <= i < |entries| ==> entries[i] == entries[1..][i - 1];
      r
  }

  /** What `currentPredictions` can hold: an array, an entry object, or undefined. */
  datatype Shown =
    | Points(points: seq<Point>)
    | Object(predictions: seq<Point>, metrics: ClientMetrics)
    | Undefined

  /** What `currentMetrics` can hold. */
  datatype MetricsSlot = Null | UndefinedMetrics | Known(metrics: ClientMetrics)

  /** The entry itself, as `data.predictions[key] || []` stores it. */
  function ShownEntry(e: Entry): Shown
  {
    match e
    case Bare(s) => Points(s)
    case Scored(p, m) => Object(p, m)
  }

  /** `entry.predictions`: undefined on a bare array. */
  function PredictionsField(e: Entry): Shown
  {
    match e
    case Bare(_) => Undefined
    case Scored(p, _) => Points(p)
  }

  /** `entry.metrics`: undefined on a bare array. */
  function MetricsField(e: Entry): MetricsSlot
  {
    match e
    case Bare(_) => UndefinedMetrics
    case Scored(_, m) => Known(m)
  }

  /**
   * The entries as the component receives the server's table: one bare entry per key of
   * the table, each key once.
   */
  ghost predicate ReceivedFrom(entries: seq<(string, Entry)>, table: map<string, seq<Point>>)
  {
    && UniqueKeys(entries)
    && (forall i :: 0 <= i < |entries| ==> entries[i].0 in table && entries[i].1 == Bare(table[entries[i].0]))
    && (forall key :: key in table ==> exists i :: 0 <= i < |entries| && entries[i].0 == key)
  }

  // ---------------------------------------------------------------- findBestModel

  /** `best.score`: minus infinity until the first entry is scored. */
  datatype Score = NegInf | Finite(value: real)

  /** A key component after `Number`: a number, NaN, or undefined when the key has too few parts. */
  datatype KeyField = Num(value: real) | NaN | Missing

  datatype BestParams = BestParams(nEstimators: KeyField, learningRate: KeyField, maxDepth: KeyField)

  /** The `best` record of `findBestModel`. */
  datatype Best = Best(params: Option<BestParams>, metrics: Option<ClientMetrics>, score: Score)

  /** The call either throws (reading `.r2` of undefined) or returns the best record. */
  datatype Outcome = Threw | Found(best: Best)

  const NoBest: Best := Best(None, None, NegInf)

  /** `r2 * 0.6 - (rmse / 10000) * 0.4`. */
  function ScoreOf(m: ClientMetrics): real
  {
    m.r2 * 0.6 - (m.rmse / 10000.0) * 0.4
  }

  /** `score > best.score`. */
  predicate Beats(s: real, best: Score)
  {
    best.NegInf? || s > best.value
  }

  /** Element i of `key.split('-').map(Number)`, undefined past the end. */
  function FieldAt(parts: seq<Option<real>>, i: nat): KeyField
  {
    if i < |parts| then
      match parts[i]
      case None => NaN
      case Some(x) => Num(x)
    else Missing
  }

  /** `const [n_est, lr, md] = key.split('-').map(Number)`. */
  function ParamsOfKey(key: string): BestParams
  {
    var parts := ParseKey(key);
    BestParams(FieldAt(parts, 0), FieldAt(parts, 1), FieldAt(parts, 2))
  }

  /** One iteration of the `forEach`. */
  function Consider(best: Best, key: string, e: Entry): Outcome
  {
    match e
    case Bare(_) => Threw
    case Scored(_, m) =>
      if Beats(ScoreOf(m), best.score) then Found(Best(Some(ParamsOfKey(key)), Some(m), Finite(ScoreOf(m))))
      else Found(best)
  }

  /** The state of `findBestModel` after the first n entries. */
  function BestUpTo(entries: seq<(string, Entry)>, n: nat): Outcome
    requires n <= |entries|
  {
    if n == 0 then Found(NoBest)
    else
      match BestUpTo(entries, n - 1)
      case Threw => Threw
      case Found(b) => Consider(b, entries[n - 1].0, entries[n - 1].1)
  }

  function BestOf(entries: seq<(string, Entry)>): Outcome
  {
    BestUpTo(entries, |entries|)
  }

  /** The record `findBestModel` would keep for entry j. */
  function BestAt(entries: seq<(string, Entry)>, j: int): Best
    requires 0 <= j < |entries| && entries[j].1.Scored?
  {
    Best(Some(ParamsOfKey(entries[j].0)), Some(entries[j].1.metrics), Finite(ScoreOf(entries[j].1.metrics)))
  }

  predicate AllScored(entries: seq<(string, Entry)>, n: int)
    requires n <= |entries|
  {
    forall k :: 0 <= k < n ==> entries[k].1.Scored?
  }

  /**
   * Entry j is the first among the first n with the highest score: every earlier entry
   * scores strictly less and none scores more.
   */
  predicate FirstBestIn(entries: seq<(string, Entry)>, j: int, n: int)
    requires n <= |entries| && AllScored(entries, n)
  {
    && 0 <= j < n
    && (forall k :: 0 <= k < j ==> ScoreOf(entries[k].1.metrics) < ScoreOf(entries[j].1.metrics))
    && (forall k :: 0 <= k < n ==> ScoreOf(entries[k].1.metrics) <= ScoreOf(entries[j].1.metrics))
  }

  /** The loop throws as soon as it meets a bare entry, and only then. */
  lemma {:induction false} ThrowsIffBare(entries: seq<(string, Entry)>, n: nat)
    requires n <= |entries|
    ensures BestUpTo(entries, n).Threw? <==> !AllScored(entries, n)
  {
    if n > 0 {
      ThrowsIffBare(entries, n - 1);
    }
  }

  lemma {:induction false} BestUpToIsFirstBest(entries: seq<(string, Entry)>, n: nat)
    requires 1 <= n <= |entries| && AllScored(entries, n)
    ensures exists j :: FirstBestIn(entries, j, n) && BestUpTo(entries, n) == Found(BestAt(entries, j))
  {
    if n == 1 {
      assert BestUpTo(entries, 0) == Found(NoBest);
      assert Consider(NoBest, entries[0].0, entries[0].1) == Found(BestAt(entries, 0));
      assert FirstBestIn(entries, 0, 1);
    } else {
      assert AllScored(entries, n - 1);
      BestUpToIsFirstBest(entries, n - 1);
      var j :| FirstBestIn(entries, j, n - 1) && BestUpTo(entries, n - 1) == Found(BestAt(entries, j));
      if ScoreOf(entries[n - 1].1.metrics) > ScoreOf(entries[j].1.metrics) {
        assert FirstBestIn(entries, n - 1, n);
      } else {
        assert FirstBestIn(entries, j, n);
      }
    }
  }

  /**
   * On a table whose entries all carry metrics, the best record is that of the first
   * entry with the highest score: ties keep the earlier entry, since replacing needs a
   * strictly higher score.
   */
  lemma BestIsFirstMaximal(entries: seq<(string, Entry)>)
    requires |entries| > 0 && AllScored(entries, |entries|)
    ensures exists j :: FirstBestIn(entries, j, |entries|) && BestOf(entries) == Found(BestAt(entries, j))
  {
    BestUpToIsFirstBest(entries, |entries|);
  }

  /** At most one entry is the first best. */
  lemma FirstBestUnique(entries: seq<(string, Entry)>, j1: int, j2: int)
    requires AllScored(entries, |entries|)
    requires FirstBestIn(entries, j1, |entries|) && FirstBestIn(entries, j2, |entries|)
    ensures j1 == j2
  {
    BestNoWorse(entries, j1, j2);
    BestNoWorse(entries, j2, j1);
  }

  lemma BestNoWorse(entries: seq<(string, Entry)>, j: int, k: int)
    requires AllScored(entries, |entries|) && FirstBestIn(entries, j, |entries|) && 0 <= k < |entries|
    ensures ScoreOf(entries[k].1.metrics) <= ScoreOf(entries[j].1.metrics)
  {
  }

  /**
   * `findBestModel`: a loop over `Object.entries(predictions)` that replaces `best`
   * whenever an entry scores strictly higher. An empty table gives no params, no metrics
   * and score minus infinity; a table with a bare entry makes the loop throw.
   */
  method FindBestModel(entries: seq<(string, Entry)>) returns (outcome: Outcome)
    ensures outcome == BestOf(entries)
    ensures outcome.Threw? <==> exists k :: 0 <= k < |entries| && entries[k].1.Bare?
    ensures |entries| == 0 ==> outcome == Found(NoBest)
    ensures |entries| > 0 && outcome.Found? ==> outcome.best.params.Some?
  {
    ThrowsIffBare(entries, |entries|);
    var best := NoBest;
    for i := 0 to |entries|
      invariant BestUpTo(entries, i) == Found(best)
      invariant i > 0 ==> best.params.Some?
    {
      var (key, data) := entries[i];
      match data {
        case Bare(_) =>
          ThrewStays(entries, i + 1, |entries|);
          return Threw;
        case Scored(_, metrics) =>
          var score := metrics.r2 * 0.6 - (metrics.rmse / 10000.0) * 0.4;
          if best.score.NegInf? || score > best.score.value {
            var parts := ParseKey(key);
            best := Best(Some(BestParams(FieldAt(parts, 0), FieldAt(parts, 1), FieldAt(parts, 2))),
                         Some(metrics), Finite(score));
          }
      }
    }
    return Found(best);
  }

  /** Once the loop has thrown it stays thrown. */
  lemma {:induction false} ThrewStays(entries: seq<(string, Entry)>, n: nat, m: nat)
    requires n <= m <= |entries| && BestUpTo(entries, n).Threw?
    ensures BestUpTo(entries, m).Threw?
  {
    if m > n {
      ThrewStays(entries, n, m - 1);
    }
  }

  // ---------------------------------------------------------------- the optimal check

  /**
   * `isClose`: equal estimator counts and depths, and learning rates less than 0.01
   * apart. A NaN or undefined field compares unequal and makes the difference NaN, so
   * it is never close.
   */
  predicate IsClose(p: Params, b: BestParams)
  {
    && b.nEstimators == Num(p.nEstimators)
    && b.learningRate.Num? && Abs(p.learningRate - b.learningRate.value) < 0.01
    && b.maxDepth == Num(p.maxDepth)
  }

  /**
   * Against the params parsed from a rendered key, the check holds exactly when the
   * estimator count and depth equal the key's values and the learning rate is within
   * 0.01 of the key's.
   */
  lemma OptimalAgainstKey(p: Params, n: Dec, lr: Dec, md: Dec)
    ensures IsClose(p, ParamsOfKey(KeyOf(n, lr, md)))
            <==> p.nEstimators == Value(n) && Abs(p.learningRate - Value(lr)) < 0.01
                 && p.maxDepth == Value(md)
  {
    KeyRoundTrip(n, lr, md);
  }

  /**
   * When the sliders are optimal for a key of the valid ranges, they snap to that very
   * key: the chart then shows the best model's series.
   */
  lemma OptimalParamsSnapToBest(p: Params, a: int, b: int, c: int)
    requires 0 <= a < |ValidNEstimators| && 0 <= b < |ValidLearningRates| && 0 <= c < |ValidMaxDepths|
    requires IsClose(p, ParamsOfKey(KeyOf(ValidNEstimators[a], ValidLearningRates[b], ValidMaxDepths[c])))
    ensures SnappedKey(p) == KeyOf(ValidNEstimators[a], ValidLearningRates[b], ValidMaxDepths[c])
  {
    OptimalAgainstKey(p, ValidNEstimators[a], ValidLearningRates[b], ValidMaxDepths[c]);
    ValidValues();
    NearestOfMember(ValidNEstimators, a);
    NearestOfMember(ValidMaxDepths, c);
    forall k | 0 <= k < |ValidLearningRates| && k != b
      ensures Distance(ValidLearningRates[b], p.learningRate) < Distance(ValidLearningRates[k], p.learningRate)
    {
      assert Abs(Value(ValidLearningRates[k]) - Value(ValidLearningRates[b])) >= 0.04;
    }
    StrictlyClosestWins(p.learningRate, ValidLearningRates, b);
  }

  // ---------------------------------------------------------------- the server's shape

  /** Every entry of the server's table is bare, so `findBestModel` throws on it. */
  lemma BestModelThrowsOnServerTable(entries: seq<(string, Entry)>, table: map<string, seq<Point>>)
    requires ReceivedFrom(entries, table) && |table| > 0
    ensures BestOf(entries).Threw?
  {
    var key :| key in table;
    var i :| 0 <= i < |entries| && entries[i].0 == key;
    assert !AllScored(entries, |entries|);
    ThrowsIffBare(entries, |entries|);
  }

  /** A key of the server's table is found among the received entries, as a bare series. */
  lemma LookupReceived(entries: seq<(string, Entry)>, table: map<string, seq<Point>>, key: string)
    requires ReceivedFrom(entries, table) && key in table
    ensures Lookup(entries, key) == Some(Bare(table[key]))
  {
    var i :| 0 <= i < |entries| && entries[i].0 == key;
    var k :| 0 <= k < |entries| && entries[k] == (key, Lookup(entries, key).value);
  }

  /**
   * On the server's table the snapped key is always found, and what the component reads
   * from the entry is undefined predictions and undefined metrics.
   */
  lemma ServerEntriesHaveNoFields(entries: seq<(string, Entry)>, table: map<string, seq<Point>>,
                                  sin: real -> real, p: Params)
    requires ReceivedFrom(entries, table) && PredictAll.IsCrossTable(table, sin)
    ensures Lookup(entries, SnappedKey(p)).Some?
    ensures PredictionsField(Lookup(entries, SnappedKey(p)).value) == Undefined
    ensures MetricsField(Lookup(entries, SnappedKey(p)).value) == UndefinedMetrics
  {
    SnappedKeyInServerTable(p, table, sin);
    LookupReceived(entries, table, SnappedKey(p));
  }

  // ---------------------------------------------------------------- component state

  /** The state of the component and the effects that overwrite it. */
  class ModelVisualizer {
    var allPredictions: seq<(string, Entry)>
    var currentPredictions: Shown
    var currentMetrics: MetricsSlot
    var initialLoading: bool
    var error: Option<string>
    var bestModel: Option<Best>
    var isOptimal: bool
    var params: Params
    /** An effect threw, which unmounts the component. */
    var crashed: bool

    /**
     * The table is an object, so its keys are unique, and a best model, once set, has
     * params: it comes from a non-empty table.
     */
    predicate Valid()
      reads this
    {
      && UniqueKeys(allPredictions)
      && (bestModel.Some? ==> bestModel.value.params.Some?)
    }

    /** The `useState` initial values. */
    constructor()
      ensures Valid()
      ensures allPredictions == [] && currentPredictions == Points([]) && currentMetrics == Null
      ensures initialLoading && error == None && bestModel == None && !isOptimal
      ensures params == InitialParams && !crashed
    {
      allPredictions := [];
      currentPredictions := Points([]);
      currentMetrics := Null;
      initialLoading := true;
      error := None;
      bestModel := None;
      isOptimal := false;
      params := InitialParams;
      crashed := false;
    }

    /**
     * The table has arrived: it is stored, the entry under the first params' key (or an
     * empty array) becomes the current predictions, and loading ends.
     */
    method Loaded(predictions: seq<(string, Entry)>)
      requires Valid() && UniqueKeys(predictions)
      modifies this
      ensures Valid()
      ensures allPredictions == predictions
      ensures currentPredictions == (match Lookup(predictions, InitialKey)
                                     case None => Points([])
                                     case Some(e) => ShownEntry(e))
      ensures !initialLoading
      ensures currentMetrics == old(currentMetrics) && error == old(error)
      ensures bestModel == old(bestModel) && isOptimal == old(isOptimal)
      ensures params == old(params) && crashed == old(crashed)
    {
      allPredictions := predictions;
      var found := Lookup(predictions, InitialKey);
      currentPredictions := if found.Some? then ShownEntry(found.value) else Points([]);
      initialLoading := false;
    }

    /** The fetch failed: the message is kept and loading ends; nothing else changes. */
    method LoadFailed(message: string)
      requires Valid()
      modifies this
      ensures Valid()
      ensures error == Some(message) && !initialLoading
      ensures allPredictions == old(allPredictions) && currentPredictions == old(currentPredictions)
      ensures currentMetrics == old(currentMetrics) && bestModel == old(bestModel)
      ensures isOptimal == old(isOptimal) && params == old(params) && crashed == old(crashed)
    {
      error := Some(message);
      initialLoading := false;
    }

    /** A slider moved. */
    method SetParams(p: Params)
      requires Valid()
      modifies this
      ensures Valid()
      ensures params == p
      ensures allPredictions == old(allPredictions) && currentPredictions == old(currentPredictions)
      ensures currentMetrics == old(currentMetrics) && initialLoading == old(initialLoading)
      ensures error == old(error) && bestModel == old(bestModel) && isOptimal == old(isOptimal)
      ensures crashed == old(crashed)
    {
      params := p;
    }

    /**
     * The effect on `[params, allPredictions]`: when the snapped key is in the table the
     * entry's `.predictions` and `.metrics` become current; on a miss both stay as they
     * were. Nothing else changes.
     */
    method SyncPredictions()
      requires Valid()
      modifies this
      ensures Valid()
      ensures match Lookup(allPredictions, SnappedKey(params))
              case None =>
                currentPredictions == old(currentPredictions) && currentMetrics == old(currentMetrics)
              case Some(e) =>
                currentPredictions == PredictionsField(e) && currentMetrics == MetricsField(e)
      ensures allPredictions == old(allPredictions) && params == old(params)
      ensures initialLoading == old(initialLoading) && error == old(error)
      ensures bestModel == old(bestModel) && isOptimal == old(isOptimal) && crashed == old(crashed)
    {
      var table, p := allPredictions, params;
      var found := Lookup(table, SnappedKey(p));
      if found.Some? {
        currentPredictions, currentMetrics := PredictionsField(found.value), MetricsField(found.value);
      }
      assert allPredictions == table && params == p;
    }

    /**
     * The effect on `[allPredictions]`: a non-empty table gets a best model, unless
     * `findBestModel` throws, which unmounts the component.
     */
    method SyncBestModel()
      requires Valid()
      modifies this
      ensures Valid()
      ensures |allPredictions| == 0 ==> bestModel == old(bestModel) && crashed == old(crashed)
      ensures |allPredictions| > 0 ==>
                match BestOf(allPredictions)
                case Threw => crashed && bestModel == old(bestModel)
                case Found(b) => bestModel == Some(b) && crashed == old(crashed)
      ensures allPredictions == old(allPredictions) && currentPredictions == old(currentPredictions)
      ensures currentMetrics == old(currentMetrics) && initialLoading == old(initialLoading)
      ensures error == old(error) && isOptimal == old(isOptimal) && params == old(params)
    {
      if |allPredictions| > 0 {
        var outcome := FindBestModel(allPredictions);
        match outcome {
          case Threw => crashed := true;
          case Found(b) => bestModel := Some(b);
        }
      }
    }

    /** The effect on `[params, bestModel]`: with a best model, `isOptimal` becomes `isClose`. */
    method SyncOptimal()
      requires Valid()
      modifies this
      ensures Valid()
      ensures bestModel.None? ==> isOptimal == old(isOptimal)
      ensures bestModel.Some? ==> isOptimal == IsClose(params, bestModel.value.params.value)
      ensures allPredictions == old(allPredictions) && currentPredictions == old(currentPredictions)
      ensures currentMetrics == old(currentMetrics) && initialLoading == old(initialLoading)
      ensures error == old(error) && bestModel == old(bestModel) && params == old(params)
      ensures crashed == old(crashed)
    {
      if bestModel.Some? {
        var b := bestModel.value.params.value;
        isOptimal := b.nEstimators == Num(params.nEstimators)
                     && b.learningRate.Num? && Abs(params.learningRate - b.learningRate.value) < 0.01
                     && b.maxDepth == Num(params.maxDepth);
      }
    }
  }
}
