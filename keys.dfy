/**
 * Cache keys `${n_estimators}-${learning_rate}-${max_depth}`: how the table builder and
 * the dashboard build them, and how the dashboard splits one back into three numbers
 * with `key.split('-').map(Number)`.
 */
module Keys {
  import opened Wrappers
  import opened Decimal

  /** The key of a parameter triple: the three renderings joined by '-'. */
  function KeyOf(n: Dec, lr: Dec, md: Dec): string
  {
    Render(n) + "-" + Render(lr) + "-" + Render(md)
  }

  /** JavaScript's `s.split('-')`: the maximal '-'-free pieces, empty pieces included. */
  function Split(s: string): (parts: seq<string>)
    ensures |parts| >= 1
    ensures forall i :: 0 <= i < |parts| ==> '-' !in parts[i]
  {
    if |s| == 0 then [""]
    else
      var rest := Split(s[1..]);
      if s[0] == '-' then [""] + rest else [[s[0]] + rest[0]] + rest[1..]
  }

  /** `key.split('-').map(Number)`, with None for NaN. */
  function ParseKey(key: string): (nums: seq<Option<real>>)
    ensures |nums| == |Split(key)|
  {
    var parts := Split(key);
    seq(|parts|, i requires 0 <= i < |parts| => JsNumber(parts[i]))
  }

  lemma {:induction false} SplitWithoutSeparator(a: string)
    requires '-' !in a
    ensures Split(a) == [a]
  {
    if |a| > 0 {
      SplitWithoutSeparator(a[1..]);
      assert [a[0]] + a[1..] == a;
    }
  }

  /** Splitting at the first separator peels off the piece before it. */
  lemma {:induction false} SplitAfterPiece(a: string, b: string)
    requires '-' !in a
    ensures Split(a + "-" + b) == [a] + Split(b)
  {
    var s := a + "-" + b;
    if |a| == 0 {
      assert s[1..] == b;
    } else {
      assert s[1..] == a[1..] + "-" + b;
      SplitAfterPiece(a[1..], b);
      assert [a[0]] + a[1..] == a;
    }
  }

  /** Pieces without '-' joined by '-' split back into exactly those pieces. */
  lemma KeySplitsIntoRenderings(n: Dec, lr: Dec, md: Dec)
    ensures Split(KeyOf(n, lr, md)) == [Render(n), Render(lr), Render(md)]
  {
    RenderHasNoMinus(n);
    RenderHasNoMinus(lr);
    RenderHasNoMinus(md);
    assert KeyOf(n, lr, md) == Render(n) + "-" + (Render(lr) + "-" + Render(md));
    SplitAfterPiece(Render(n), Render(lr) + "-" + Render(md));
    SplitAfterPiece(Render(lr), Render(md));
    SplitWithoutSeparator(Render(md));
  }

  lemma ParseThreePieces(key: string, a: string, b: string, c: string)
    requires Split(key) == [a, b, c]
    ensures ParseKey(key) == [JsNumber(a), JsNumber(b), JsNumber(c)]
  {
  }

  /** Parsing a key recovers the three parameter values it was built from. */
  lemma KeyRoundTrip(n: Dec, lr: Dec, md: Dec)
    ensures ParseKey(KeyOf(n, lr, md)) == [Some(Value(n)), Some(Value(lr)), Some(Value(md))]
  {
    KeySplitsIntoRenderings(n, lr, md);
    ParseThreePieces(KeyOf(n, lr, md), Render(n), Render(lr), Render(md));
    RenderRoundTrip(n);
    RenderRoundTrip(lr);
    RenderRoundTrip(md);
  }

  /** Two triples share a key only if they have the same three values. */
  lemma KeyDeterminesValues(n: Dec, lr: Dec, md: Dec, n': Dec, lr': Dec, md': Dec)
    requires KeyOf(n, lr, md) == KeyOf(n', lr', md')
    ensures Value(n) == Value(n') && Value(lr) == Value(lr') && Value(md) == Value(md')
  {
    KeyRoundTrip(n, lr, md);
    KeyRoundTrip(n', lr', md');
  }

  /**
   * Why components must not be negative: with a negative estimator count the key text
   * starts with '-', the split yields an extra empty piece, and the three numbers read
   * back are 0, the count's magnitude and the learning rate.
   */
  lemma NegativeComponentShiftsKey(n: Dec, lr: Dec, md: Dec)
    ensures ParseKey("-" + KeyOf(n, lr, md))
         == [Some(0.0), Some(Value(n)), Some(Value(lr)), Some(Value(md))]
  {
    KeySplitsIntoRenderings(n, lr, md);
    SplitAfterPiece("", KeyOf(n, lr, md));
    assert "" + "-" + KeyOf(n, lr, md) == "-" + KeyOf(n, lr, md);
    assert Split("-" + KeyOf(n, lr, md)) == ["", Render(n), Render(lr), Render(md)];
    RenderRoundTrip(n);
    RenderRoundTrip(lr);
    RenderRoundTrip(md);
  }
}
