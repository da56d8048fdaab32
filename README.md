# Insurance model visualizer — verified model of its core

The application shows how three gradient-boosting hyperparameters (number of estimators,
learning rate, maximum depth) change the predictions of an insurance-cost model. It has
four core pieces, and each is modelled in Dafny:

- **`pages/api/predict.js`** answers a POST with a synthetic 50-point series and its error
  metrics. It is modelled in `series.dfy`, `metrics.dfy` and `predict.dfy`.
  - The series has an actual charge that grows with the position and a prediction that
    oscillates around it.
  - The metrics are RMSE, MAE and R².
- **`pages/api/predictAll.js`** answers a GET with one series for every combination of
  4 × 3 × 4 hyperparameter values. The series are keyed by `"n-lr-md"`, and the answer
  also carries a fixed "best" configuration. It is modelled in `predict_all.dfy` as the
  imperative triple loop that fills the table. The key text is modelled in `decimal.dfy`
  and `keys.dfy`.
- **`components/ModelVisualizer.js`** is the client. It is modelled in `visualizer.dfy`
  as a class `ModelVisualizer` whose fields are the component's state and whose
  methods are its state updates (load, load failure, slider change, the three effects).
  Its pure helpers are functions proved against reference definitions:
  - snapping a slider value to the nearest valid value;
  - picking the best-scoring entry;
  - the "is optimal" test.
- **`api/index.py`** is the Python GET handler over the recorded model-performance
  data. It is modelled in `model_api.dfy`.
  - The path `/api/parameter-ranges` answers the sorted distinct values of each
    hyperparameter.
  - Any other path answers the records whose fields equal the query parameters
    present.

Some of the program's behaviour is modelled exactly as written, even where it is
surprising:

- **Table shape.** `predictAll` stores a bare array of points under each key. The
  client reads `.predictions` and `.metrics` from each entry. The client's entries are
  therefore `Entry = Bare(series) | Scored(predictions, metrics)`, and the model proves
  what happens on the server's table:
  - the slider effect sets the shown predictions and metrics to `undefined`
    (`ServerEntriesHaveNoFields`);
  - `findBestModel` throws a TypeError (`BestModelThrowsOnServerTable`).
- **Number parsing.** Python's `int()`/`float()` are modelled as written for plain
  decimal text, with an optional sign. Text they reject raises ValueError, which the
  model answers as an explicit response `ValueError`. The handler has already sent
  status 200 by then, so the client gets headers and no body.
- **Nondeterminism and I/O.** `Math.sin` is a parameter `sin: real -> real`. Only its
  bound `-1 <= sin(x) <= 1` is assumed, and only where a proof needs it. The
  `model_data` list, the fetched JSON and the query string are parameters.

## Model

| member | source | states |
|---|---|---|
| `Decimal.DigitsValueOfNatToString` | components/ModelVisualizer.js:86 | `Number` reads back the decimal digits a whole number is written with in a key |
| `Decimal.PointedRoundTrip` | components/ModelVisualizer.js:86 | `Number` reads `whole.fraction` text (fraction zero-padded to its width) back as whole + fraction/10^width, and the text has no `-` |
| `Decimal.ParsePointed` | components/ModelVisualizer.js:86 | text of digits, a point and digits parses to the value of its two digit runs |
| `Decimal.RenderHasNoMinus` | pages/api/predictAll.js:27 | the rendering of a parameter value never contains the key separator `-` |
| `Decimal.RenderRoundTrip` | components/ModelVisualizer.js:66 | the template rendering of any parameter value contains no `-` and `Number` reads it back as the same value |
| `Decimal.Render` | pages/api/predictAll.js:27 | the template text of a parameter value; `RenderRoundTrip` and `RenderHasNoMinus` characterize it |
| `Decimal.ParseUnsigned` | components/ModelVisualizer.js:86 | `Number` on digits with at most one point; `ParsePointed` and `DigitsValueOfNatToString` characterize it |
| `Decimal.JsNumber` | components/ModelVisualizer.js:86 | `Number` on a key piece, empty text reading 0; `RenderRoundTrip` proves it inverts `Render` |
| `Keys.Split` | components/ModelVisualizer.js:86 | `split('-')` yields at least one piece and no piece contains `-` |
| `Keys.SplitAfterPiece` | components/ModelVisualizer.js:86 | splitting `a-b`, with no `-` in a, is `a` followed by the pieces of b |
| `Keys.KeySplitsIntoRenderings` | pages/api/predictAll.js:27 | the key `${n}-${lr}-${md}` splits into exactly the three renderings |
| `Keys.KeyRoundTrip` | components/ModelVisualizer.js:86 | `key.split('-').map(Number)` recovers exactly the three values the key was built from |
| `Keys.KeyDeterminesValues` | pages/api/predictAll.js:27 | two configurations with the same key have the same three values |
| `Keys.NegativeComponentShiftsKey` | components/ModelVisualizer.js:86 | a leading minus sign adds an empty piece, which reads as 0 and shifts the three values one place right |
| `Keys.KeyOf` | pages/api/predictAll.js:27 | the key `${n}-${lr}-${md}`, also built at components/ModelVisualizer.js:66; `KeySplitsIntoRenderings` and `KeyDeterminesValues` characterize it |
| `Keys.ParseKey` | components/ModelVisualizer.js:86 | `key.split('-').map(Number)`; `KeyRoundTrip` proves it inverts `KeyOf` |
| `Series.GenerateBaseData` | pages/api/predict.js:31-36 | `length` points, the i-th with index i |
| `Series.GeneratePredictions` | pages/api/predict.js:38-45 | one point per base point, keeping its index and using its base charge as the actual value |
| `Series.BaseChargeBounds` | pages/api/predict.js:34 | the base charge at position i lies in [5000 + 1000i, 15000 + 1000i] |
| `Series.PredictedWithinBand` | pages/api/predict.js:42 | the prediction is actual·(1 + 0.2·sin(i·factor)), within 20% of the actual value |
| `Series.GeneratedRow` | pages/api/predict.js:31-45 | row i of a generated series has index i, actual = base charge i, prediction in the ±20% band |
| `Series.BaseCharge` | pages/api/predict.js:34 | the base charge at position i; `BaseChargeBounds` bounds it |
| `Series.Factor` | pages/api/predict.js:39 | the oscillation frequency of a configuration; `PredictedWithinBand` holds for every factor |
| `Series.Predicted` | pages/api/predict.js:42 | the predicted value of a row; `PredictedWithinBand` puts it within 20% of the actual value |
| `Metrics.CalculateMetrics` | pages/api/predict.js:47-66 | mean squared error and MAE are non-negative, R² ≤ 1, and SS_res = n · mean squared error |
| `Metrics.ErrorsAreNonNegative` | pages/api/predict.js:51-62 | sums of squared and absolute errors are non-negative; SS_res equals the sum of squared errors |
| `Metrics.SumOfNonNegativesIsZero` | pages/api/predict.js:51-57 | a sum of non-negative terms is zero exactly when every term is zero |
| `Metrics.PerfectPredictionMetrics` | pages/api/predict.js:47-66 | every prediction equals its actual value if and only if MSE = 0, MAE = 0 and R² = 1 |
| `Metrics.MeanPredictionScoresZero` | pages/api/predict.js:59-63 | predicting the mean everywhere scores R² = 0 |
| `Metrics.TotalSumOfSquaresIsZero` | pages/api/predict.js:59-60 | SS_tot ≥ 0, and SS_tot = 0 exactly when all actual values are equal |
| `Metrics.DeviationsAreNonNegative` | pages/api/predict.js:60 | each squared deviation is ≥ 0 and is 0 exactly at the mean |
| `Metrics.MeanOfConstant` | pages/api/predict.js:59 | the mean of equal values is that value |
| `Metrics.Sum` | pages/api/predict.js:52-62 | the `reduce((sum, …) => sum + …, 0)` of the metrics; `SumOfNonNegativesIsZero` characterizes it |
| `Metrics.MeanActual` | pages/api/predict.js:59 | the mean of the actual values; `MeanOfConstant` and `MeanPredictionScoresZero` characterize it |
| `Metrics.SsTotal` | pages/api/predict.js:60 | the total sum of squares; `TotalSumOfSquaresIsZero` characterizes when it is 0 |
| `Metrics.SsResidual` | pages/api/predict.js:61-62 | the residual sum of squares; `ErrorsAreNonNegative` ties it to the squared errors and `PerfectPredictionMetrics` to exact predictions |
| `Predict.GeneratedSeriesHasSpread` | pages/api/predict.js:15-17 | a generated series of at least 12 points has SS_tot > 0, so R² never divides by zero |
| `Predict.HandlePredict` | pages/api/predict.js:5-29 | 405 exactly for a non-POST; 500 exactly for a POST whose body cannot be destructured (not JSON, or JSON `null`); otherwise the series generated from the request's three parameters (50 rows indexed by position, actual = base charge, predictions within ±20%) and the metrics of that series |
| `PredictAll.RangeValuesDistinct` | pages/api/predictAll.js:19-21 | the ranges have 4, 3 and 4 values, pairwise distinct within each range |
| `PredictAll.KeyAtInjective` | pages/api/predictAll.js:27 | distinct grid positions give distinct keys |
| `PredictAll.FreshKey` | pages/api/predictAll.js:28 | the key stored by an iteration is not in the table yet |
| `PredictAll.StoreKeepsVisited` | pages/api/predictAll.js:28 | one store keeps every earlier entry and adds the current one |
| `PredictAll.StoreAddsOnlyVisited` | pages/api/predictAll.js:28 | after one store, every key in the table belongs to a visited position |
| `PredictAll.FillStep` | pages/api/predictAll.js:26-29 | the innermost iteration extends the table by exactly the current position's series |
| `PredictAll.NextRate` | pages/api/predictAll.js:25-30 | finishing the depth loop completes the current learning rate |
| `PredictAll.NextEstimators` | pages/api/predictAll.js:24-31 | finishing the learning-rate loop completes the current estimator count |
| `PredictAll.FillTable` | pages/api/predictAll.js:24-31 | the triple loop leaves a table holding, for every grid position and only for those, the key of that position mapped to its series |
| `PredictAll.FilledIsCrossTable` | pages/api/predictAll.js:15-31 | a fully filled table has 48 keys, every combination's series under its key, and no other key |
| `PredictAll.BuildAllPredictions` | pages/api/predictAll.js:15-31 | the built table has exactly the 48 combination keys, each holding the series generated from the shared base data |
| `PredictAll.RangeKeyInCrossTable` | pages/api/predictAll.js:19-28 | the key of any three range values is in the table |
| `PredictAll.HandlePredictAll` | pages/api/predictAll.js:5-43 | 405 exactly for a non-GET; otherwise the full table and the fixed best configuration 200 / 0.1 / 4 |
| `PredictAll.CrossTableRows` | pages/api/predictAll.js:59-65 | every series in the table has 50 rows indexed by position, actual = base charge, predictions within ±20% |
| `PredictAll.ActualsAgreeAcrossKeys` | pages/api/predictAll.js:16 | all configurations share the same actual values, because the base data is generated once |
| `PredictAll.CrossKeysParse` | pages/api/predictAll.js:27 | every key of the table splits and parses back to three range values, and holds the series of that combination |
| `Visualizer.NearestIndex` | components/ModelVisualizer.js:55-57 | the value the reduce returns is the valid value at some position before n |
| `Visualizer.NearestIndexIsFirstClosest` | components/ModelVisualizer.js:55-57 | the reduce returns the first of the closest valid values (ties keep the earlier one) |
| `Visualizer.FindNearestValue` | components/ModelVisualizer.js:54-58 | the result is a valid value, and no valid value is strictly closer to the input |
| `Visualizer.NearestIsFirstClosest` | components/ModelVisualizer.js:54-58 | the result is the valid value at the first position of minimal distance |
| `Visualizer.FirstClosestUnique` | components/ModelVisualizer.js:54-58 | there is only one first closest position |
| `Visualizer.StrictlyClosestWins` | components/ModelVisualizer.js:54-58 | a valid value strictly closer than all others is the result |
| `Visualizer.NearestOfMember` | components/ModelVisualizer.js:54-58 | snapping a valid value (distinct valid values) returns that value |
| `Visualizer.NearestIdempotent` | components/ModelVisualizer.js:54-58 | snapping twice is snapping once |
| `Visualizer.ValidParamsAreServerRanges` | components/ModelVisualizer.js:15-19 | the client's valid values are the server's ranges |
| `Visualizer.ValidValues` | components/ModelVisualizer.js:15-19 | the valid values are distinct in each list; the learning rates are 0.01, 0.05, 0.1 |
| `Visualizer.SnappedKeyInServerTable` | components/ModelVisualizer.js:62-67 | for any slider position the snapped key is a key of the server's table |
| `Visualizer.InitialKeyIsSnapped` | components/ModelVisualizer.js:40 | the key used at load time is the snapped key of the initial parameters |
| `Visualizer.SnappedKey` | components/ModelVisualizer.js:62-66 | the key of the three snapped slider values; `SnappedKeyInServerTable` proves it is a key of the server's table |
| `Visualizer.Lookup` | components/ModelVisualizer.js:67 | no entry is found exactly when no entry has the key; a found entry is the one stored under the key |
| `Visualizer.ThrowsIffBare` | components/ModelVisualizer.js:81-83 | the scan throws exactly when some entry scanned has no `metrics` |
| `Visualizer.BestUpToIsFirstBest` | components/ModelVisualizer.js:81-97 | over scored entries the scan keeps the first entry of maximal score |
| `Visualizer.BestIsFirstMaximal` | components/ModelVisualizer.js:74-100 | on a non-empty scored table the best is the first entry of maximal score, with its parameters read from its key |
| `Visualizer.FirstBestUnique` | components/ModelVisualizer.js:85 | there is only one first maximal entry |
| `Visualizer.ScoreOf` | components/ModelVisualizer.js:83 | the score `r2 · 0.6 − rmse / 10000 · 0.4`; `BestIsFirstMaximal` ranks entries by it |
| `Visualizer.ParamsOfKey` | components/ModelVisualizer.js:86-92 | the three numbers read back from a key, `undefined` for a missing piece; `KeyRoundTrip` proves the reading recovers the values a key was built from, and `BestIsFirstMaximal` that the best's parameters are read from its key |
| `Visualizer.Consider` | components/ModelVisualizer.js:82-96 | one forEach step: throw on a bare entry, replace the best on a strictly higher score; `BestUpToIsFirstBest` and `ThrewStays` characterize it |
| `Visualizer.BestUpTo` | components/ModelVisualizer.js:81-97 | the scan over the first n entries; `ThrowsIffBare` and `BestUpToIsFirstBest` characterize it |
| `Visualizer.FindBestModel` | components/ModelVisualizer.js:74-100 | the loop computes the reference scan: it throws exactly when some entry is bare, answers the null best for no entries, and otherwise a best with parameters |
| `Visualizer.ThrewStays` | components/ModelVisualizer.js:81 | once the scan has thrown, scanning further entries still throws |
| `Visualizer.OptimalAgainstKey` | components/ModelVisualizer.js:112-115 | the optimal test holds exactly when the estimators and depth equal the key's and the learning rates differ by less than 0.01 |
| `Visualizer.OptimalParamsSnapToBest` | components/ModelVisualizer.js:110-118 | parameters judged optimal against a grid key snap to that very key |
| `Visualizer.IsClose` | components/ModelVisualizer.js:112-115 | the optimal test; `OptimalAgainstKey` and `OptimalParamsSnapToBest` characterize it |
| `Visualizer.BestModelThrowsOnServerTable` | components/ModelVisualizer.js:83 | on the non-empty table `predictAll` sends, `findBestModel` throws |
| `Visualizer.LookupReceived` | components/ModelVisualizer.js:38 | each key of the received table reads back its bare series |
| `Visualizer.ServerEntriesHaveNoFields` | components/ModelVisualizer.js:67-69 | on the server's table the snapped key is found, but its `predictions` and `metrics` are `undefined` |
| `Visualizer.ModelVisualizer.constructor` | components/ModelVisualizer.js:6-25 | the initial state: empty table, empty series, null metrics, loading, no error, no best model, not optimal, parameters 100 / 0.05 / 3 |
| `Visualizer.ModelVisualizer.Loaded` | components/ModelVisualizer.js:38-42 | for a table whose keys are distinct (a JavaScript object's), stores the table, shows the entry under the initial key or `[]`, ends loading, changes nothing else, and keeps the table's keys distinct |
| `Visualizer.ModelVisualizer.LoadFailed` | components/ModelVisualizer.js:43-46 | records the error message, ends loading, changes nothing else |
| `Visualizer.ModelVisualizer.SetParams` | components/ModelVisualizer.js:153-156 | replaces the parameters, changes nothing else |
| `Visualizer.ModelVisualizer.SyncPredictions` | components/ModelVisualizer.js:61-71 | when the snapped key is found, shows its `predictions` and `metrics`; otherwise keeps both |
| `Visualizer.ModelVisualizer.SyncBestModel` | components/ModelVisualizer.js:103-107 | a non-empty table sets the best model to the scan's result, or crashes when the scan throws; an empty table changes nothing |
| `Visualizer.ModelVisualizer.SyncOptimal` | components/ModelVisualizer.js:110-118 | with a best model, `isOptimal` becomes the closeness test of the parameters against it; without one it is kept |
| `ModelApi.Insert` | api/index.py:24 | inserting into a strictly increasing list keeps it strictly increasing and adds exactly the new value |
| `ModelApi.SortedDistinct` | api/index.py:24-26 | `sorted(list(set(xs)))` is strictly increasing and holds exactly the values of xs |
| `ModelApi.HeadIsLeast` | api/index.py:24 | the head of a strictly increasing list is its least value |
| `ModelApi.SortedListsWithSameValuesAreEqual` | api/index.py:24-26 | two strictly increasing lists with the same values are equal, so the ranges are determined by the value sets |
| `ModelApi.RangesAreSortedValueSets` | api/index.py:21-27 | each range is ascending without duplicates and holds a value exactly when some record has it in that field |
| `ModelApi.RangesOf` | api/index.py:21-27 | the three ranges; `RangesAreSortedValueSets` characterizes them |
| `ModelApi.With` | api/index.py:32-42 | adding a criterion sets that field and leaves the others |
| `ModelApi.SelectIsOrderedSubsequence` | api/index.py:34 | the filter yields the records at the increasing positions of exactly the matching records |
| `ModelApi.SelectSound` | api/index.py:34 | every kept record is one of the data and matches |
| `ModelApi.SelectComplete` | api/index.py:34 | every matching record is kept |
| `ModelApi.SelectNothingKeepsAll` | api/index.py:30 | with no criteria the data is answered unchanged |
| `ModelApi.SelectTwice` | api/index.py:32-42 | filtering the filtered list on a further field is one filter on both |
| `ModelApi.SelectAppend` | api/index.py:34 | filtering distributes over concatenation |
| `ModelApi.Select` | api/index.py:34 | the list comprehension over all criteria; `SelectIsOrderedSubsequence`, `SelectSound` and `SelectComplete` characterize it |
| `ModelApi.ParseIntRoundTrip` | api/index.py:33 | `int` reads back the digits of a whole number, with or without a minus sign |
| `ModelApi.ParseFloatRoundTrip` | api/index.py:37 | `float` reads back the decimal rendering of a value |
| `ModelApi.ParseInt` | api/index.py:33 | `int()` on a query value, `None` for ValueError; `ParseIntRoundTrip` proves it reads back rendered integers |
| `ModelApi.ParseFloat` | api/index.py:37 | `float()` on a query value, `None` for ValueError; `ParseFloatRoundTrip` proves it reads back rendered decimals |
| `ModelApi.HandleGet` | api/index.py:16-46 | the ranges path answers the ranges of the data; any other path never does |
| `ModelApi.FilterStepIsSelect` | api/index.py:32-42 | one `if name in query` block turns a selection into the selection with that criterion, or into the error |
| `ModelApi.QueryStepLeaves` | api/index.py:32-42 | one block leaves the criteria of the other fields alone |
| `ModelApi.FilterStep` | api/index.py:32-42 | one `if name in query` block; `FilterStepIsSelect` characterizes it |
| `ModelApi.FilterRecords` | api/index.py:28-44 | the three blocks in order; `FiltersAreOneSelection` characterizes the result |
| `ModelApi.FiltersAreOneSelection` | api/index.py:28-44 | any other path answers exactly the records matching every parameter present, in data order, or ValueError when a present value does not convert |
| `ModelApi.NoParametersAnswersAll` | api/index.py:30-44 | with none of the three parameters the whole data is answered |
| `ModelApi.OnlyFirstValuesMatter` | api/index.py:33 | only the first value of each repeated parameter affects the answer |

## Left out

- Floating point. Every number is an exact real. JavaScript's and Python's doubles, rounding in `0.01 * n`, `Math.sqrt`, and `Infinity`/`NaN` arithmetic are not modelled.
- `Metrics.CalculateMetrics`: models the RMSE by the mean squared error under `Math.sqrt`, because the square root of a real is not available. It requires a non-empty series with SS_tot ≠ 0 where JavaScript would return `NaN`/`Infinity`. `Predict.GeneratedSeriesHasSpread` proves that every series the handlers build meets that requirement.
- `Math.sin` is a parameter. Its values are only assumed to lie in [-1, 1], so the concrete series are not computed.
- Number formatting in keys. Parameter values are non-negative decimals `Dec(units, scale)` rendered with exactly `scale` fraction digits. That matches `${x}` for the literals of both tables. JavaScript's shortest round-trip formatting of other doubles (for example `0.30000000000000004`, or exponent forms) is not modelled.
- `Number()` on key pieces accepts "", digits, and digits with one point. Leading whitespace, signs, exponents, `Infinity` and hex text read as NaN here.
- Python's `int()`/`float()` accept a sign and plain decimal text. Surrounding whitespace, `_` separators, exponents and `inf`/`nan` are not modelled.
- The Python record fields are reals, and an integer-valued query is compared numerically as Python does.
- The JSON and HTTP layers are not modelled: serialization, headers, CORS, `urlparse`/`parse_qs` decoding, and reading `model_performance_data.json`. The path, the decoded query map and the record list are parameters. The ValueError is an explicit response, not a 200 with an empty body.
- The 500 branch of `predictAll.js` (lines 44-49) is not modelled: nothing in the modelled body throws.
- In `predict.js`, a JSON body other than `null` that lacks a field (an object without it, or a number, string or array) makes JavaScript compute with `undefined` and answer 200. The model's destructurable body always has the three numbers.
- Client I/O. `fetch` is not modelled: its outcomes are the two methods `Loaded` and `LoadFailed`. A non-OK response is modelled only as a failure message.
- React scheduling is not modelled. The three effects are methods the caller invokes in React's order.
- The render tree, the chart and `toLocaleString` formatting are not modelled.
- `Visualizer.ModelVisualizer.SetParams`: the sliders' `parseInt`/`parseFloat` of the input text is not modelled. The method takes the parsed parameters.
- `Visualizer.ModelVisualizer.SyncBestModel`: the TypeError that `findBestModel` throws is the flag `crashed`. React's error handling after that is not modelled.
