/**
 * The handler of pages/api/predictAll.js: a GET is answered with a table holding one
 * generated series per combination of the three parameter ranges, keyed by
 * `${n}-${lr}-${md}`, together with a fixed `bestConfig`; any other method with 405.
 */
module PredictAll {
  import opened Wrappers
  import opened Decimal
  import opened Keys
  import opened Series

  /**
   * The three parameter ranges the loops run over, in loop order. The loop lemmas hold for
   * any values of a grid of the handler's shape (`Shaped`), not only for `Ranges`.
   */
  datatype Grid = Grid(nEstimators: seq<Dec>, learningRates: seq<Dec>, maxDepths: seq<Dec>)

  const Ranges: Grid := Grid([Dec(50, 0), Dec(100, 0), Dec(150, 0), Dec(200, 0)],
                             [Dec(1, 2), Dec(5, 2), Dec(1, 1)],
                             [Dec(2, 0), Dec(3, 0), Dec(4, 0), Dec(5, 0)])

  /** The number of combinations, 4 * 3 * 4. */
  const TableSize: nat := 48

  /** The shape of `Ranges`: 4 estimator counts, 3 learning rates and 4 depths. */
  predicate Shaped(g: Grid)
  {
    |g.nEstimators| == 4 && |g.learningRates| == 3 && |g.maxDepths| == 4
  }

  /** Positions (a, b, c) in the three ranges. */
  predicate InRange(g: Grid, a: int, b: int, c: int)
  {
    0 <= a < |g.nEstimators| && 0 <= b < |g.learningRates| && 0 <= c < |g.maxDepths|
  }

  /** The key the loop writes for the positions (a, b, c). */
  function KeyAt(g: Grid, a: int, b: int, c: int): string
    requires InRange(g, a, b, c)
  {
    KeyOf(g.nEstimators[a], g.learningRates[b], g.maxDepths[c])
  }

  /** The series the loop stores for the positions (a, b, c). */
  function SeriesAt(g: Grid, a: int, b: int, c: int, sin: real -> real): seq<Point>
    requires InRange(g, a, b, c)
  {
    GeneratePredictions(GenerateBaseData(SeriesLength, sin), Value(g.nEstimators[a]),
                        Value(g.learningRates[b]), Value(g.maxDepths[c]), sin)
  }

  /** (a, b, c) comes strictly before (i, j, k) in the order of the nested loops. */
  predicate Before(a: int, b: int, c: int, i: int, j: int, k: int)
  {
    a < i || (a == i && (b < j || (b == j && c < k)))
  }

  /** Within each range, no two literals have the same value. */
  predicate GridDistinct(g: Grid)
  {
    DistinctValues(g.nEstimators) && DistinctValues(g.learningRates) && DistinctValues(g.maxDepths)
  }

  /** Every combination before (i, j, k) has its entry, holding its series. */
  ghost predicate HasVisited(g: Grid, table: map<string, seq<Point>>, sin: real -> real,
                             i: int, j: int, k: int)
  {
    forall a, b, c :: InRange(g, a, b, c) && Before(a, b, c, i, j, k) ==>
      KeyAt(g, a, b, c) in table && table[KeyAt(g, a, b, c)] == SeriesAt(g, a, b, c, sin)
  }

  /** Every key of the table belongs to a combination before (i, j, k). */
  ghost predicate OnlyVisited(g: Grid, table: map<string, seq<Point>>, i: int, j: int, k: int)
  {
    forall key :: key in table ==>
      exists a, b, c :: InRange(g, a, b, c) && Before(a, b, c, i, j, k) && key == KeyAt(g, a, b, c)
  }

  /**
   * The table after the loops have visited every combination before (i, j, k): one entry
   * per visited combination, holding its series, and nothing else. The count of visited
   * combinations is written for the handler's shape, 4 × 3 × 4: the lemmas that step the
   * loops ask for `Shaped(g)` where they need it.
   */
  ghost predicate Filled(g: Grid, table: map<string, seq<Point>>, sin: real -> real,
                         i: int, j: int, k: int)
  {
    && |table| == i * 12 + j * 4 + k
    && HasVisited(g, table, sin, i, j, k)
    && OnlyVisited(g, table, i, j, k)
  }

  /**
   * The finished table: exactly the 48 keys of the cross product of the ranges, each
   * holding the series generated with its parameters.
   */
  ghost predicate IsCrossTable(table: map<string, seq<Point>>, sin: real -> real)
  {
    && |table| == TableSize
    && (forall a, b, c :: InRange(Ranges, a, b, c) ==>
          KeyAt(Ranges, a, b, c) in table && table[KeyAt(Ranges, a, b, c)] == SeriesAt(Ranges, a, b, c, sin))
    && (forall key :: key in table ==>
          exists a, b, c :: InRange(Ranges, a, b, c) && key == KeyAt(Ranges, a, b, c))
  }

  /** The values of the range literals are pairwise different within each range. */
  lemma RangeValuesDistinct()
    ensures Shaped(Ranges) && GridDistinct(Ranges)
  {
    assert Pow10(0) == 1 && Pow10(1) == 10 && Pow10(2) == 100;
    var ns, lrs, mds := Ranges.nEstimators, Ranges.learningRates, Ranges.maxDepths;
    assert Value(ns[0]) == 50.0 && Value(ns[1]) == 100.0 && Value(ns[2]) == 150.0 && Value(ns[3]) == 200.0;
    assert Value(lrs[0]) == 0.01 && Value(lrs[1]) == 0.05 && Value(lrs[2]) == 0.1;
    assert Value(mds[0]) == 2.0 && Value(mds[1]) == 3.0 && Value(mds[2]) == 4.0 && Value(mds[3]) == 5.0;
  }

  /** Different combinations get different keys. */
  lemma KeyAtInjective(g: Grid, a: int, b: int, c: int, i: int, j: int, k: int)
    requires GridDistinct(g) && InRange(g, a, b, c) && InRange(g, i, j, k)
    requires KeyAt(g, a, b, c) == KeyAt(g, i, j, k)
    ensures a == i && b == j && c == k
  {
    KeyDeterminesValues(g.nEstimators[a], g.learningRates[b], g.maxDepths[c],
                        g.nEstimators[i], g.learningRates[j], g.maxDepths[k]);
  }

  /** The key of a combination not yet visited is not in the table. */
  lemma FreshKey(g: Grid, table: map<string, seq<Point>>, i: int, j: int, k: int)
    requires GridDistinct(g) && InRange(g, i, j, k) && OnlyVisited(g, table, i, j, k)
    ensures KeyAt(g, i, j, k) !in table
  {
    if KeyAt(g, i, j, k) in table {
      var a, b, c :| InRange(g, a, b, c) && Before(a, b, c, i, j, k) && KeyAt(g, i, j, k) == KeyAt(g, a, b, c);
      KeyAtInjective(g, a, b, c, i, j, k);
      assert false;
    }
  }

  /** Storing the series of (i, j, k) keeps every earlier entry and adds its own. */
  lemma StoreKeepsVisited(g: Grid, table: map<string, seq<Point>>, sin: real -> real,
                          i: int, j: int, k: int)
    requires GridDistinct(g) && InRange(g, i, j, k) && HasVisited(g, table, sin, i, j, k)
    ensures HasVisited(g, table[KeyAt(g, i, j, k) := SeriesAt(g, i, j, k, sin)], sin, i, j, k + 1)
  {
    var table' := table[KeyAt(g, i, j, k) := SeriesAt(g, i, j, k, sin)];
    forall a, b, c | InRange(g, a, b, c) && Before(a, b, c, i, j, k + 1)
      ensures KeyAt(g, a, b, c) in table' && table'[KeyAt(g, a, b, c)] == SeriesAt(g, a, b, c, sin)
    {
      if KeyAt(g, a, b, c) == KeyAt(g, i, j, k) {
        KeyAtInjective(g, a, b, c, i, j, k);
      } else {
        assert Before(a, b, c, i, j, k);
      }
    }
  }

  /** Storing the series of (i, j, k) adds only the key of (i, j, k). */
  lemma StoreAddsOnlyVisited(g: Grid, table: map<string, seq<Point>>, sin: real -> real,
                             i: int, j: int, k: int)
    requires InRange(g, i, j, k) && OnlyVisited(g, table, i, j, k)
    ensures OnlyVisited(g, table[KeyAt(g, i, j, k) := SeriesAt(g, i, j, k, sin)], i, j, k + 1)
  {
    var table' := table[KeyAt(g, i, j, k) := SeriesAt(g, i, j, k, sin)];
    forall key | key in table'
      ensures exists a, b, c :: InRange(g, a, b, c) && Before(a, b, c, i, j, k + 1) && key == KeyAt(g, a, b, c)
    {
      if key != KeyAt(g, i, j, k) {
        var a, b, c :| InRange(g, a, b, c) && Before(a, b, c, i, j, k) && key == KeyAt(g, a, b, c);
        assert Before(a, b, c, i, j, k + 1);
      } else {
        assert Before(i, j, k, i, j, k + 1);
      }
    }
  }

  /** Storing the series of (i, j, k) adds a fresh key and extends the visited prefix. */
  lemma FillStep(g: Grid, table: map<string, seq<Point>>, sin: real -> real, i: int, j: int, k: int)
    requires GridDistinct(g) && InRange(g, i, j, k) && Filled(g, table, sin, i, j, k)
    ensures Filled(g, table[KeyAt(g, i, j, k) := SeriesAt(g, i, j, k, sin)], sin, i, j, k + 1)
  {
    FreshKey(g, table, i, j, k);
    StoreKeepsVisited(g, table, sin, i, j, k);
    StoreAddsOnlyVisited(g, table, sin, i, j, k);
  }

  /**
   * Visiting everything before (i, j, k) is visiting everything before (i', j', k') when
   * the two positions have the same combinations before them.
   */
  lemma SamePrefix(g: Grid, table: map<string, seq<Point>>, sin: real -> real,
                   i: int, j: int, k: int, i': int, j': int, k': int)
    requires forall a, b, c :: InRange(g, a, b, c) ==>
               (Before(a, b, c, i, j, k) <==> Before(a, b, c, i', j', k'))
    requires Filled(g, table, sin, i, j, k) && i * 12 + j * 4 + k == i' * 12 + j' * 4 + k'
    ensures Filled(g, table, sin, i', j', k')
  {
    forall key | key in table
      ensures exists a, b, c :: InRange(g, a, b, c) && Before(a, b, c, i', j', k') && key == KeyAt(g, a, b, c)
    {
      var a, b, c :| InRange(g, a, b, c) && Before(a, b, c, i, j, k) && key == KeyAt(g, a, b, c);
      assert Before(a, b, c, i', j', k');
    }
  }

  /** The last depth of a rate is followed by the first depth of the next rate. */
  lemma RowOfDepthsEnds(g: Grid, i: int, j: int)
    ensures forall a, b, c :: InRange(g, a, b, c) ==>
              (Before(a, b, c, i, j, |g.maxDepths|) <==> Before(a, b, c, i, j + 1, 0))
  {
  }

  /** The last rate of an estimator count is followed by the first rate of the next count. */
  lemma RowOfRatesEnds(g: Grid, i: int)
    ensures forall a, b, c :: InRange(g, a, b, c) ==>
              (Before(a, b, c, i, |g.learningRates|, 0) <==> Before(a, b, c, i + 1, 0, 0))
  {
  }

  /** Having visited a whole row of depths is having visited up to the next rate. */
  lemma NextRate(g: Grid, table: map<string, seq<Point>>, sin: real -> real, i: int, j: int)
    requires Shaped(g) && Filled(g, table, sin, i, j, |g.maxDepths|)
    ensures Filled(g, table, sin, i, j + 1, 0)
  {
    RowOfDepthsEnds(g, i, j);
    SamePrefix(g, table, sin, i, j, |g.maxDepths|, i, j + 1, 0);
  }

  /** Having visited every rate is having visited up to the next estimator count. */
  lemma NextEstimators(g: Grid, table: map<string, seq<Point>>, sin: real -> real, i: int)
    requires Shaped(g) && Filled(g, table, sin, i, |g.learningRates|, 0)
    ensures Filled(g, table, sin, i + 1, 0, 0)
  {
    RowOfRatesEnds(g, i);
    SamePrefix(g, table, sin, i, |g.learningRates|, 0, i + 1, 0, 0);
  }

  /** Having visited every combination of `Ranges` is the finished cross table. */
  lemma FilledIsCrossTable(table: map<string, seq<Point>>, sin: real -> real)
    requires Filled(Ranges, table, sin, |Ranges.nEstimators|, 0, 0)
    ensures IsCrossTable(table, sin)
  {
    forall key | key in table
      ensures exists a, b, c :: InRange(Ranges, a, b, c) && key == KeyAt(Ranges, a, b, c)
    {
      var a, b, c :| InRange(Ranges, a, b, c) && Before(a, b, c, |Ranges.nEstimators|, 0, 0)
                     && key == KeyAt(Ranges, a, b, c);
    }
  }

  /**
   * The triple nested loop of the handler over the ranges `g`, filling the table in
   * place: each combination's key receives the series generated from the shared base
   * data with that combination's values.
   */
  method FillTable(g: Grid, sin: real -> real) returns (table: map<string, seq<Point>>)
    requires Shaped(g) && GridDistinct(g)
    ensures Filled(g, table, sin, |g.nEstimators|, 0, 0)
  {
    table := map[];
    var baseData := GenerateBaseData(SeriesLength, sin);
    for i := 0 to |g.nEstimators|
      invariant Filled(g, table, sin, i, 0, 0)
    {
      for j := 0 to |g.learningRates|
        invariant Filled(g, table, sin, i, j, 0)
      {
        for k := 0 to |g.maxDepths|
          invariant Filled(g, table, sin, i, j, k)
        {
          var key := KeyOf(g.nEstimators[i], g.learningRates[j], g.maxDepths[k]);
          FillStep(g, table, sin, i, j, k);
          table := table[key := GeneratePredictions(baseData, Value(g.nEstimators[i]),
                                                    Value(g.learningRates[j]),
                                                    Value(g.maxDepths[k]), sin)];
        }
        NextRate(g, table, sin, i, j);
      }
      NextEstimators(g, table, sin, i);
    }
  }

  /** The table the handler builds over its literal ranges. */
  method BuildAllPredictions(sin: real -> real) returns (table: map<string, seq<Point>>)
    ensures IsCrossTable(table, sin)
  {
    RangeValuesDistinct();
    table := FillTable(Ranges, sin);
    FilledIsCrossTable(table, sin);
  }

  /** Any three values of the ranges form a key of the cross table. */
  lemma RangeKeyInCrossTable(table: map<string, seq<Point>>, sin: real -> real, n: Dec, lr: Dec, md: Dec)
    requires IsCrossTable(table, sin)
    requires n in Ranges.nEstimators && lr in Ranges.learningRates && md in Ranges.maxDepths
    ensures KeyOf(n, lr, md) in table
  {
    var a := PositionOf(Ranges.nEstimators, n);
    var b := PositionOf(Ranges.learningRates, lr);
    var c := PositionOf(Ranges.maxDepths, md);
    assert KeyAt(Ranges, a, b, c) in table;
  }

  lemma PositionOf(ds: seq<Dec>, d: Dec) returns (i: int)
    requires d in ds
    ensures 0 <= i < |ds| && ds[i] == d
  {
    i :| 0 <= i < |ds| && ds[i] == d;
  }

  /** The constant `bestConfig` of the response. */
  datatype BestConfig = BestConfig(nEstimators: real, learningRate: real, maxDepth: real)

  const FixedBestConfig: BestConfig := BestConfig(200.0, 0.1, 4.0)

  /** 405, or 200 with the table and the fixed best configuration. */
  datatype AllResponse =
    | MethodNotAllowed
    | AllPredicted(predictions: map<string, seq<Point>>, bestConfig: BestConfig)

  /**
   * The whole handler: 405 exactly for a verb other than GET, before any table is built;
   * otherwise the cross table and the same `bestConfig` (200, 0.1, 4) whatever was
   * generated.
   */
  method HandlePredictAll(verb: string, sin: real -> real) returns (resp: AllResponse)
    ensures resp.MethodNotAllowed? <==> verb != "GET"
    ensures resp.AllPredicted? ==>
              IsCrossTable(resp.predictions, sin) && resp.bestConfig == FixedBestConfig
  {
    if verb != "GET" {
      return MethodNotAllowed;
    }
    var table := BuildAllPredictions(sin);
    return AllPredicted(table, FixedBestConfig);
  }

  /**
   * Every entry of the cross table is a 50-row series indexed by position, whose actual
   * value at a position does not depend on the key and whose predictions lie within 20%
   * of the actual values.
   */
  lemma CrossTableRows(table: map<string, seq<Point>>, sin: real -> real, key: string, p: nat)
    requires SineBounded(sin) && IsCrossTable(table, sin) && key in table && p < SeriesLength
    ensures |table[key]| == SeriesLength
    ensures table[key][p].index == p
    ensures table[key][p].actual == BaseCharge(p, sin)
    ensures 0.8 * table[key][p].actual <= table[key][p].predicted <= 1.2 * table[key][p].actual
  {
    var a, b, c :| InRange(Ranges, a, b, c) && key == KeyAt(Ranges, a, b, c);
    GeneratedRow(SeriesLength, Value(Ranges.nEstimators[a]), Value(Ranges.learningRates[b]),
                 Value(Ranges.maxDepths[c]), sin, p);
  }

  /** The actual value at a position is the same under every key. */
  lemma ActualsAgreeAcrossKeys(table: map<string, seq<Point>>, sin: real -> real,
                               key1: string, key2: string, p: nat)
    requires IsCrossTable(table, sin) && key1 in table && key2 in table && p < SeriesLength
    ensures p < |table[key1]| && p < |table[key2]|
    ensures table[key1][p].actual == table[key2][p].actual
  {
    var a, b, c :| InRange(Ranges, a, b, c) && key1 == KeyAt(Ranges, a, b, c);
    var a', b', c' :| InRange(Ranges, a', b', c') && key2 == KeyAt(Ranges, a', b', c');
    var baseData := GenerateBaseData(SeriesLength, sin);
    assert table[key1][p].actual == baseData[p].base;
    assert table[key2][p].actual == baseData[p].base;
  }

  /**
   * Splitting and converting any key of the cross table gives back three range values,
   * the parameters its series was generated with.
   */
  lemma CrossKeysParse(table: map<string, seq<Point>>, sin: real -> real, key: string)
    requires IsCrossTable(table, sin) && key in table
    ensures exists a, b, c :: InRange(Ranges, a, b, c) &&
              ParseKey(key) == [Some(Value(Ranges.nEstimators[a])), Some(Value(Ranges.learningRates[b])),
                                Some(Value(Ranges.maxDepths[c]))] &&
              table[key] == SeriesAt(Ranges, a, b, c, sin)
  {
    var a, b, c :| InRange(Ranges, a, b, c) && key == KeyAt(Ranges, a, b, c);
    KeyRoundTrip(Ranges.nEstimators[a], Ranges.learningRates[b], Ranges.maxDepths[c]);
  }
}
