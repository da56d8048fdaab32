/**
 * The GET handler of api/index.py over the list of model-performance records: the path
 * /api/parameter-ranges answers the sorted distinct values of each hyperparameter, any
 * other path answers the records matching the `n_estimators`, `learning_rate` and
 * `max_depth` query parameters that are present.
 *
 * JSON numbers are reals here: Python compares an int with a float by value.
 */
module ModelApi {
  import opened Wrappers
  import opened Decimal

  /** One entry of `model_data`. */
  datatype Record = Record(nEstimators: real, learningRate: real, maxDepth: real,
                           rmse: real, mae: real, r2: real)

  datatype Field = NEstimators | LearningRate | MaxDepth

  /** `d['n_estimators']`, `d['learning_rate']` or `d['max_depth']`. */
  function FieldOf(d: Record, f: Field): real
  {
    match f
    case NEstimators => d.nEstimators
    case LearningRate => d.learningRate
    case MaxDepth => d.maxDepth
  }

  // ---------------------------------------------------------------- parameter ranges

  predicate StrictlyIncreasing(s: seq<real>)
  {
    forall i, j :: 0 <= i < j < |s| ==> s[i] < s[j]
  }

  /** Places x in a strictly increasing list, unless it is there already. */
  function Insert(x: real, s: seq<real>): (r: seq<real>)
    requires StrictlyIncreasing(s)
    ensures StrictlyIncreasing(r)
    ensures forall y :: y in r <==> y == x || y in s
  {
    if |s| == 0 then [x]
    else if x < s[0] then [x] + s
    else if x == s[0] then s
    else
      var rest := Insert(x, s[1..]);
      assert forall y :: y in s <==> y == s[0] || y in s[1..];
      assert forall i :: 0 < i < |s| ==> s[0] < s[i];
      assert forall y :: y in rest ==> s[0] < y;
      assert forall i :: 0 <= i < |rest| ==> s[0] < rest[i] by {
        forall i | 0 <= i < |rest| ensures s[0] < rest[i] {
          assert rest[i] in rest;
        }
      }
      [s[0]] + rest
  }

  /** `sorted(list(set(xs)))`: ascending, without duplicates, holding exactly the values of xs. */
  function SortedDistinct(xs: seq<real>): (r: seq<real>)
    ensures StrictlyIncreasing(r)
    ensures forall y :: y in r <==> y in xs
  {
    if |xs| == 0 then []
    else
      var r := Insert(xs[|xs| - 1], SortedDistinct(xs[..|xs| - 1]));
      assert forall y :: y in xs <==> y == xs[|xs| - 1] || y in xs[..|xs| - 1];
      r
  }

  /** The head of a strictly increasing list is its least value. */
  lemma HeadIsLeast(s: seq<real>, y: real)
    requires StrictlyIncreasing(s) && y in s
    ensures s[0] <= y
  {
    var i :| 0 <= i < |s| && s[i] == y;
    if i > 0 {
      assert s[0] < s[i];
    }
  }

  /**
   * A strictly increasing list is determined by its set of values, so `SortedDistinct`
   * is the only list with the two properties it promises.
   */
  lemma {:induction false} SortedListsWithSameValuesAreEqual(a: seq<real>, b: seq<real>)
    requires StrictlyIncreasing(a) && StrictlyIncreasing(b)
    requires forall y :: y in a <==> y in b
    ensures a == b
  {
    // Either both are empty or neither is.
    if |a| > 0 {
      assert a[0] in a;
    }
    if |b| > 0 {
      assert b[0] in b;
    }
    if |a| > 0 && |b| > 0 {
      // The heads are both the least value.
      HeadIsLeast(a, b[0]);
      HeadIsLeast(b, a[0]);
      forall y
        ensures y in a[1..] <==> y in b[1..]
      {
        if y in a[1..] {
          var i :| 1 <= i < |a| && a[i] == y;
          assert a[0] < y;
        }
        if y in b[1..] {
          var i :| 1 <= i < |b| && b[i] == y;
          assert b[0] < y;
        }
        assert y in a <==> y == a[0] || y in a[1..];
        assert y in b <==> y == b[0] || y in b[1..];
      }
      SortedListsWithSameValuesAreEqual(a[1..], b[1..]);
      assert a == [a[0]] + a[1..];
      assert b == [b[0]] + b[1..];
    }
  }

  /** `[d[field] for d in model_data]`. */
  function Column(data: seq<Record>, f: Field): (col: seq<real>)
    ensures |col| == |data| && forall i :: 0 <= i < |data| ==> col[i] == FieldOf(data[i], f)
  {
    seq(|data|, i requires 0 <= i < |data| => FieldOf(data[i], f))
  }

  /** The response of /api/parameter-ranges. */
  datatype ParameterRanges = ParameterRanges(nEstimators: seq<real>, learningRates: seq<real>,
                                             maxDepths: seq<real>)

  function RangesOf(data: seq<Record>): ParameterRanges
  {
    ParameterRanges(SortedDistinct(Column(data, NEstimators)),
                    SortedDistinct(Column(data, LearningRate)),
                    SortedDistinct(Column(data, MaxDepth)))
  }

  function RangeFor(r: ParameterRanges, f: Field): seq<real>
  {
    match f
    case NEstimators => r.nEstimators
    case LearningRate => r.learningRates
    case MaxDepth => r.maxDepths
  }

  /**
   * Each list of the ranges is ascending without duplicates and holds a value exactly
   * when some record has it in that field.
   */
  lemma RangesAreSortedValueSets(data: seq<Record>, f: Field)
    ensures StrictlyIncreasing(RangeFor(RangesOf(data), f))
    ensures forall i, j :: 0 <= i < j < |RangeFor(RangesOf(data), f)| ==>
              RangeFor(RangesOf(data), f)[i] != RangeFor(RangesOf(data), f)[j]
    ensures forall v :: v in RangeFor(RangesOf(data), f) <==>
              exists i :: 0 <= i < |data| && FieldOf(data[i], f) == v
  {
    var col := Column(data, f);
    forall v
      ensures v in col <==> exists i :: 0 <= i < |data| && FieldOf(data[i], f) == v
    {
      if v in col {
        var i :| 0 <= i < |col| && col[i] == v;
      }
    }
  }

  // ---------------------------------------------------------------- query filters

  /** The parameters a filter checks; `None` for a parameter absent from the query. */
  datatype Criteria = Criteria(nEstimators: Option<real>, learningRate: Option<real>,
                               maxDepth: Option<real>)

  const NoCriteria: Criteria := Criteria(None, None, None)

  function CriterionOf(c: Criteria, f: Field): Option<real>
  {
    match f
    case NEstimators => c.nEstimators
    case LearningRate => c.learningRate
    case MaxDepth => c.maxDepth
  }

  /** The criteria with field f required to equal v. */
  function With(c: Criteria, f: Field, v: real): (c': Criteria)
    ensures CriterionOf(c', f) == Some(v)
    ensures forall g :: g != f ==> CriterionOf(c', g) == CriterionOf(c, g)
  {
    match f
    case NEstimators => c.(nEstimators := Some(v))
    case LearningRate => c.(learningRate := Some(v))
    case MaxDepth => c.(maxDepth := Some(v))
  }

  /** The record agrees with every criterion present. */
  predicate Matches(d: Record, c: Criteria)
  {
    forall f: Field :: CriterionOf(c, f).Some? ==> FieldOf(d, f) == CriterionOf(c, f).value
  }

  /** `[d for d in data if ...]` for the criteria c. */
  function Select(data: seq<Record>, c: Criteria): seq<Record>
  {
    if |data| == 0 then []
    else
      var last := data[|data| - 1];
      Select(data[..|data| - 1], c) + (if Matches(last, c) then [last] else [])
  }

  /** The positions of the records the filter keeps, in increasing order. */
  function KeptPositions(data: seq<Record>, c: Criteria): seq<nat>
  {
    if |data| == 0 then []
    else
      KeptPositions(data[..|data| - 1], c) + (if Matches(data[|data| - 1], c) then [|data| - 1] else [])
  }

  /**
   * The filter keeps exactly the matching records, in their original order: its result
   * is `data` read at the increasing positions of the matching records.
   */
  lemma {:induction false} SelectIsOrderedSubsequence(data: seq<Record>, c: Criteria)
    ensures var kept, pos := Select(data, c), KeptPositions(data, c);
            && |kept| == |pos|
            && (forall k :: 0 <= k < |pos| ==> pos[k] < |data| && kept[k] == data[pos[k]])
            && (forall k, l :: 0 <= k < l < |pos| ==> pos[k] < pos[l])
            && (forall i :: 0 <= i < |data| ==> (i in pos <==> Matches(data[i], c)))
  {
    if |data| > 0 {
      var init := data[..|data| - 1];
      SelectIsOrderedSubsequence(init, c);
      var pos := KeptPositions(data, c);
      var pos0 := KeptPositions(init, c);
      forall i | 0 <= i < |data|
        ensures i in pos <==> Matches(data[i], c)
      {
        if i < |data| - 1 {
          assert data[i] == init[i];
          assert i in pos <==> i in pos0;
        }
      }
    }
  }

  /** Every kept record matches every criterion present. */
  lemma SelectSound(data: seq<Record>, c: Criteria, d: Record)
    requires d in Select(data, c)
    ensures d in data && Matches(d, c)
  {
    SelectIsOrderedSubsequence(data, c);
    var k :| 0 <= k < |Select(data, c)| && Select(data, c)[k] == d;
    var i := KeptPositions(data, c)[k];
    assert i in KeptPositions(data, c);
  }

  /** Every matching record is kept. */
  lemma SelectComplete(data: seq<Record>, c: Criteria, i: int)
    requires 0 <= i < |data| && Matches(data[i], c)
    ensures data[i] in Select(data, c)
  {
    SelectIsOrderedSubsequence(data, c);
    var k :| 0 <= k < |KeptPositions(data, c)| && KeptPositions(data, c)[k] == i;
  }

  /** Without criteria the filter keeps everything. */
  lemma {:induction false} SelectNothingKeepsAll(data: seq<Record>)
    ensures Select(data, NoCriteria) == data
  {
    if |data| > 0 {
      SelectNothingKeepsAll(data[..|data| - 1]);
      assert data == data[..|data| - 1] + [data[|data| - 1]];
    }
  }

  /** Filtering a filtered list on a further field is filtering once on both. */
  lemma {:induction false} SelectTwice(data: seq<Record>, c: Criteria, f: Field, v: real)
    requires CriterionOf(c, f).None?
    ensures Select(Select(data, c), With(NoCriteria, f, v)) == Select(data, With(c, f, v))
  {
    var only := With(NoCriteria, f, v);
    if |data| > 0 {
      var init, last := data[..|data| - 1], data[|data| - 1];
      SelectTwice(init, c, f, v);
      assert Matches(last, With(c, f, v)) <==> Matches(last, c) && Matches(last, only) by {
        if Matches(last, c) && Matches(last, only) {
          forall g: Field | CriterionOf(With(c, f, v), g).Some?
            ensures FieldOf(last, g) == CriterionOf(With(c, f, v), g).value
          {
            if g != f {
              assert CriterionOf(c, g).Some?;
            } else {
              assert CriterionOf(only, f).Some?;
            }
          }
        }
        if Matches(last, With(c, f, v)) {
          forall g: Field | CriterionOf(c, g).Some?
            ensures FieldOf(last, g) == CriterionOf(c, g).value
          {
            assert g != f;
            assert CriterionOf(With(c, f, v), g) == CriterionOf(c, g);
          }
          assert CriterionOf(With(c, f, v), f).Some?;
          forall g: Field | CriterionOf(only, g).Some?
            ensures FieldOf(last, g) == CriterionOf(only, g).value
          {
            assert g == f;
          }
        }
      }
      SelectAppend(Select(init, c), if Matches(last, c) then [last] else [], only);
      if Matches(last, c) {
        assert Select([last], only) == Select([], only) + (if Matches(last, only) then [last] else []);
      }
    }
  }

  /** Filtering distributes over concatenation. */
  lemma {:induction false} SelectAppend(xs: seq<Record>, ys: seq<Record>, c: Criteria)
    ensures Select(xs + ys, c) == Select(xs, c) + Select(ys, c)
  {
    if |ys| > 0 {
      var init := ys[..|ys| - 1];
      SelectAppend(xs, init, c);
      assert (xs + ys)[..|xs + ys| - 1] == xs + init;
    } else {
      assert xs + ys == xs;
    }
  }

  // ---------------------------------------------------------------- Python number parsing

  /** Python's `int(s)`: an optional sign and decimal digits; `None` stands for ValueError. */
  function ParseInt(s: string): Option<int>
  {
    var negative := |s| > 0 && s[0] == '-';
    var digits := if |s| > 0 && (s[0] == '-' || s[0] == '+') then s[1..] else s;
    if |digits| > 0 && AllDigits(digits) then
      Some(if negative then -(DigitsValue(digits) as int) else DigitsValue(digits) as int)
    else None
  }

  /** Python's `float(s)`: an optional sign and unsigned decimal text; `None` stands for ValueError. */
  function ParseFloat(s: string): Option<real>
  {
    var negative := |s| > 0 && s[0] == '-';
    var unsigned := if |s| > 0 && (s[0] == '-' || s[0] == '+') then s[1..] else s;
    match ParseUnsigned(unsigned)
    case None => None
    case Some(v) => Some(if negative then -v else v)
  }

  /** `int` reads back the decimal digits of a whole number, with or without a minus sign. */
  lemma ParseIntRoundTrip(n: nat)
    ensures ParseInt(NatToString(n)) == Some(n)
    ensures ParseInt("-" + NatToString(n)) == Some(-(n as int))
  {
    DigitsValueOfNatToString(n);
    assert ("-" + NatToString(n))[1..] == NatToString(n);
  }

  /** `float` reads back the rendering of a decimal. */
  lemma ParseFloatRoundTrip(d: Dec)
    ensures ParseFloat(Render(d)) == Some(Value(d))
  {
    RenderRoundTrip(d);
    var whole := if d.scale == 0 then d.units else Quotient(d.units, Pow10(d.scale));
    assert Render(d)[0] == NatToString(whole)[0];
    assert IsDigit(Render(d)[0]);
  }

  /** The name of each query parameter, and how the handler converts its value. */
  function ParamName(f: Field): string
  {
    match f
    case NEstimators => "n_estimators"
    case LearningRate => "learning_rate"
    case MaxDepth => "max_depth"
  }

  function Convert(f: Field, s: string): Option<real>
  {
    if f == LearningRate then ParseFloat(s)
    else match ParseInt(s)
         case None => None
         case Some(n) => Some(n as real)
  }

  /** `parse_qs` maps each name to the non-empty list of its values. */
  predicate WellFormedQuery(query: map<string, seq<string>>)
  {
    forall name :: name in query ==> |query[name]| > 0
  }

  /**
   * One `if name in query:` block: convert the first value (ValueError ends the
   * handler) and keep the records equal to it on that field.
   */
  function FilterStep(filtered: Option<seq<Record>>, query: map<string, seq<string>>, f: Field)
    : Option<seq<Record>>
    requires WellFormedQuery(query)
  {
    match filtered
    case None => None
    case Some(records) =>
      if ParamName(f) !in query then filtered
      else
        match Convert(f, query[ParamName(f)][0])
        case None => None
        case Some(v) => Some(Select(records, With(NoCriteria, f, v)))
  }

  /** The records a non-ranges request answers, or None when a conversion raised. */
  function FilterRecords(query: map<string, seq<string>>, data: seq<Record>): Option<seq<Record>>
    requires WellFormedQuery(query)
  {
    FilterStep(FilterStep(FilterStep(Some(data), query, NEstimators), query, LearningRate),
               query, MaxDepth)
  }

  /** What the handler writes. */
  datatype Response =
    | Ranges(ranges: ParameterRanges)
    | Records(records: seq<Record>)
    | ValueError

  const RangesPath: string := "/api/parameter-ranges"

  /** `do_GET` after the URL is split into its path and its parsed query. */
  function HandleGet(path: string, query: map<string, seq<string>>, data: seq<Record>): (resp: Response)
    requires WellFormedQuery(query)
    ensures path == RangesPath ==> resp == Ranges(RangesOf(data))
    ensures path != RangesPath ==> !resp.Ranges?
  {
    if path == RangesPath then Ranges(RangesOf(data))
    else
      match FilterRecords(query, data)
      case None => ValueError
      case Some(records) => Records(records)
  }

  /** The criteria the query asks for, or None when converting a present value raises. */
  function QueryCriteria(query: map<string, seq<string>>): Option<Criteria>
    requires WellFormedQuery(query)
  {
    QueryStep(QueryStep(QueryStep(Some(NoCriteria), query, NEstimators), query, LearningRate),
              query, MaxDepth)
  }

  function QueryStep(c: Option<Criteria>, query: map<string, seq<string>>, f: Field): Option<Criteria>
    requires WellFormedQuery(query)
  {
    match c
    case None => None
    case Some(crit) =>
      if ParamName(f) !in query then c
      else
        match Convert(f, query[ParamName(f)][0])
        case None => None
        case Some(v) => Some(With(crit, f, v))
  }

  lemma FilterStepIsSelect(data: seq<Record>, c: Criteria, query: map<string, seq<string>>, f: Field)
    requires WellFormedQuery(query) && CriterionOf(c, f).None?
    ensures FilterStep(Some(Select(data, c)), query, f)
            == (match QueryStep(Some(c), query, f)
                case None => None
                case Some(c') => Some(Select(data, c')))
  {
    if ParamName(f) in query {
      var v := Convert(f, query[ParamName(f)][0]);
      if v.Some? {
        SelectTwice(data, c, f, v.value);
      }
    }
  }

  lemma QueryStepLeaves(c: Criteria, query: map<string, seq<string>>, f: Field, g: Field)
    requires WellFormedQuery(query) && g != f && QueryStep(Some(c), query, f).Some?
    ensures CriterionOf(QueryStep(Some(c), query, f).value, g) == CriterionOf(c, g)
  {
  }

  /**
   * The three successive filters are one filter: a non-ranges request answers exactly
   * the records matching every parameter present, or ValueError when a present value
   * does not convert.
   */
  lemma FiltersAreOneSelection(path: string, query: map<string, seq<string>>, data: seq<Record>)
    requires WellFormedQuery(query) && path != RangesPath
    ensures HandleGet(path, query, data)
            == (match QueryCriteria(query)
                case None => ValueError
                case Some(c) => Records(Select(data, c)))
  {
    SelectNothingKeepsAll(data);
    FilterStepIsSelect(data, NoCriteria, query, NEstimators);
    var c1 := QueryStep(Some(NoCriteria), query, NEstimators);
    if c1.Some? {
      QueryStepLeaves(NoCriteria, query, NEstimators, LearningRate);
      FilterStepIsSelect(data, c1.value, query, LearningRate);
      var c2 := QueryStep(c1, query, LearningRate);
      if c2.Some? {
        QueryStepLeaves(NoCriteria, query, NEstimators, MaxDepth);
        QueryStepLeaves(c1.value, query, LearningRate, MaxDepth);
        FilterStepIsSelect(data, c2.value, query, MaxDepth);
      }
    }
  }

  /** With none of the three parameters in the query, the whole data set is answered. */
  lemma NoParametersAnswersAll(path: string, query: map<string, seq<string>>, data: seq<Record>)
    requires WellFormedQuery(query) && path != RangesPath
    requires "n_estimators" !in query && "learning_rate" !in query && "max_depth" !in query
    ensures HandleGet(path, query, data) == Records(data)
  {
    SelectNothingKeepsAll(data);
    FiltersAreOneSelection(path, query, data);
  }

  /** Only the first value of each parameter matters: later repeats are ignored. */
  lemma OnlyFirstValuesMatter(path: string, q1: map<string, seq<string>>, q2: map<string, seq<string>>,
                              data: seq<Record>)
    requires WellFormedQuery(q1) && WellFormedQuery(q2)
    requires forall f: Field :: (ParamName(f) in q1 <==> ParamName(f) in q2)
    requires forall f: Field :: ParamName(f) in q1 ==> q1[ParamName(f)][0] == q2[ParamName(f)][0]
    ensures HandleGet(path, q1, data) == HandleGet(path, q2, data)
  {
    assert forall f: Field, r :: FilterStep(r, q1, f) == FilterStep(r, q2, f);
  }
}
