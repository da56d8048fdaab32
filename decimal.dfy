/**
 * Non-negative numbers with a finite decimal expansion, their rendering as text and
 * the parsing of such text back into numbers.
 *
 * Every parameter value that the dashboard puts into a cache key is a decimal literal
 * (50, 100, 0.01, 0.05, 0.1, 2, 3, ...). `Dec(units, scale)` stands for units / 10^scale
 * and is rendered with exactly `scale` fraction digits, which for those literals is the
 * text JavaScript's `${x}` produces.
 */
module Decimal {
  import opened Wrappers

  datatype Dec = Dec(units: nat, scale: nat)

  function Pow10(k: nat): (r: nat)
    ensures r >= 1
  {
    if k == 0 then 1 else 10 * Pow10(k - 1)
  }

  /** The number a decimal stands for. */
  function Value(d: Dec): real
  {
    d.units as real / Pow10(d.scale) as real
  }

  /** No two decimals of the list stand for the same number. */
  predicate DistinctValues(ds: seq<Dec>)
  {
    forall a, b :: 0 <= a < b < |ds| ==> Value(ds[a]) != Value(ds[b])
  }

  predicate IsDigit(c: char)
  {
    '0' <= c <= '9'
  }

  predicate AllDigits(s: string)
  {
    forall i :: 0 <= i < |s| ==> IsDigit(s[i])
  }

  function DigitChar(d: nat): (c: char)
    requires d < 10
    ensures IsDigit(c) && c as int - '0' as int == d
  {
    ('0' as int + d) as char
  }

  /** Decimal notation of a natural number, without leading zeros. */
  function NatToString(n: nat): (s: string)
    ensures |s| >= 1 && AllDigits(s)
  {
    if n < 10 then [DigitChar(n)] else NatToString(n / 10) + [DigitChar(n % 10)]
  }

  /** The number a string of decimal digits denotes (leading zeros allowed). */
  function DigitsValue(s: string): nat
    requires AllDigits(s)
  {
    if |s| == 0 then 0
    else DigitsValue(s[..|s| - 1]) * 10 + (s[|s| - 1] as int - '0' as int)
  }

  function Zeros(k: nat): (s: string)
    ensures |s| == k && AllDigits(s)
    ensures forall i :: 0 <= i < k ==> s[i] == '0'
  {
    if k == 0 then "" else "0" + Zeros(k - 1)
  }

  /** Left-pads a digit string with zeros up to `width` characters. */
  function PadLeft(s: string, width: nat): (r: string)
    requires AllDigits(s)
    ensures AllDigits(r) && |r| == if |s| < width then width else |s|
  {
    if |s| < width then Zeros(width - |s|) + s else s
  }

  /** u divided by p, rounded down. */
  function Quotient(u: nat, p: nat): nat
    requires p >= 1
  {
    u / p
  }

  /** The remainder of u divided by p. */
  function Remainder(u: nat, p: nat): (r: nat)
    requires p >= 1
    ensures r < p
  {
    u % p
  }

  /** Text of a decimal: integer part, and when scale > 0 a point and exactly scale digits. */
  function Render(d: Dec): string
  {
    if d.scale == 0 then NatToString(d.units)
    else Pointed(Quotient(d.units, Pow10(d.scale)), Remainder(d.units, Pow10(d.scale)), d.scale)
  }

  /** `whole.fraction`, the fraction written in exactly `width` digits. */
  function Pointed(whole: nat, fraction: nat, width: nat): string
  {
    NatToString(whole) + "." + PadLeft(NatToString(fraction), width)
  }

  function IndexOf(s: string, c: char): (i: nat)
    requires c in s
    ensures i < |s| && s[i] == c && c !in s[..i]
  {
    if s[0] == c then 0 else 1 + IndexOf(s[1..], c)
  }

  /**
   * Unsigned decimal text: digits with at most one point and at least one digit
   * ("12", "0.05", ".5", "5."). None for anything else.
   */
  function ParseUnsigned(s: string): (r: Option<real>)
    ensures r.Some? ==> r.value >= 0.0
  {
    if '.' !in s then
      if |s| > 0 && AllDigits(s) then Some(DigitsValue(s) as real) else None
    else
      var i := IndexOf(s, '.');
      var whole, frac := s[..i], s[i + 1..];
      if AllDigits(whole) && AllDigits(frac) && |whole| + |frac| > 0 then
        Some(PointedValue(whole, frac))
      else None
  }

  /** The value of `whole.frac`: the whole part plus the fraction digits over 10^|frac|. */
  function PointedValue(whole: string, frac: string): (v: real)
    requires AllDigits(whole) && AllDigits(frac)
    ensures v >= 0.0
  {
    DigitsValue(whole) as real + DigitsValue(frac) as real / Pow10(|frac|) as real
  }

  /**
   * JavaScript's Number() on text: the empty string is 0, unsigned decimal text is its
   * value, and None stands for NaN.
   */
  function JsNumber(s: string): Option<real>
  {
    if s == "" then Some(0.0) else ParseUnsigned(s)
  }

  lemma {:induction false} DigitsValueOfNatToString(n: nat)
    ensures DigitsValue(NatToString(n)) == n
  {
    if n >= 10 {
      var s := NatToString(n);
      assert s[..|s| - 1] == NatToString(n / 10);
      DigitsValueOfNatToString(n / 10);
    }
  }

  lemma {:induction false} DigitsValueOfZeros(k: nat)
    ensures DigitsValue(Zeros(k)) == 0
  {
    if k > 0 {
      var z := Zeros(k);
      assert z[..k - 1] == Zeros(k - 1);
      DigitsValueOfZeros(k - 1);
    }
  }

  /** Leading zeros do not change the value of a digit string. */
  lemma {:induction false} DigitsValueIgnoresLeadingZeros(k: nat, s: string)
    requires AllDigits(s)
    ensures DigitsValue(Zeros(k) + s) == DigitsValue(s)
  {
    if |s| == 0 {
      assert Zeros(k) + s == Zeros(k);
      DigitsValueOfZeros(k);
    } else {
      var t := Zeros(k) + s;
      assert t[..|t| - 1] == Zeros(k) + s[..|s| - 1];
      DigitsValueIgnoresLeadingZeros(k, s[..|s| - 1]);
    }
  }

  lemma {:induction false} NatToStringFits(n: nat, k: nat)
    requires 1 <= k && n < Pow10(k)
    ensures |NatToString(n)| <= k
  {
    if n >= 10 {
      assert k >= 2;
      NatToStringFits(n / 10, k - 1);
    }
  }

  lemma DivisionSplit(q: real, r: real, p: real)
    requires p > 0.0
    ensures (q * p + r) / p == q + r / p
  {
  }

  lemma {:induction false} IndexOfAfterDigits(whole: string, rest: string)
    requires AllDigits(whole)
    ensures '.' in whole + "." + rest && IndexOf(whole + "." + rest, '.') == |whole|
  {
    var s := whole + "." + rest;
    assert s[|whole|] == '.';
    if |whole| > 0 {
      assert s[1..] == whole[1..] + "." + rest;
      IndexOfAfterDigits(whole[1..], rest);
    }
  }

  /** Unsigned text with a point is read as whole part plus scaled fraction digits. */
  lemma ParsePointed(whole: string, frac: string)
    requires AllDigits(whole) && AllDigits(frac) && |whole| > 0
    ensures ParseUnsigned(whole + "." + frac) == Some(PointedValue(whole, frac))
  {
    var s := whole + "." + frac;
    IndexOfAfterDigits(whole, frac);
    var i := IndexOf(s, '.');
    assert s[..i] == whole;
    assert s[i + 1..] == frac;
  }

  /** A decimal's value is its integer part plus its remainder over 10^scale. */
  lemma ValueByParts(d: Dec)
    ensures Value(d) == (Quotient(d.units, Pow10(d.scale))) as real
                        + (Remainder(d.units, Pow10(d.scale))) as real / Pow10(d.scale) as real
  {
    var p := Pow10(d.scale);
    var q, r := d.units / p, d.units % p;
    assert d.units == q * p + r;
    assert d.units as real == q as real * p as real + r as real;
    DivisionSplit(q as real, r as real, p as real);
  }

  /** `q.rrr` with r written in exactly `scale` digits reads back as q + r / 10^scale. */
  lemma {:induction false} PointedRoundTrip(q: nat, r: nat, scale: nat)
    requires scale > 0 && r < Pow10(scale)
    ensures '-' !in Pointed(q, r, scale)
    ensures ParseUnsigned(Pointed(q, r, scale)) == Some(q as real + r as real / Pow10(scale) as real)
  {
    var whole, digits := NatToString(q), NatToString(r);
    NatToStringFits(r, scale);
    var frac := PadLeft(digits, scale);
    assert '-' !in whole && '-' !in frac;
    ParsePointed(whole, frac);
    DigitsValueOfNatToString(q);
    DigitsValueOfNatToString(r);
    DigitsValueIgnoresLeadingZeros(scale - |digits|, digits);
    assert |frac| == scale && DigitsValue(frac) == r && DigitsValue(whole) == q;
    assert Pointed(q, r, scale) == whole + "." + frac;
    assert PointedValue(whole, frac) == q as real + r as real / Pow10(scale) as real;
  }

  /** A rendering holds only digits and at most a point, so never a minus sign. */
  lemma RenderHasNoMinus(d: Dec)
    ensures '-' !in Render(d)
  {
    var r := Render(d);
    if d.scale > 0 {
      var whole := NatToString(Quotient(d.units, Pow10(d.scale)));
      var frac := PadLeft(NatToString(Remainder(d.units, Pow10(d.scale))), d.scale);
      assert r == whole + "." + frac;
      assert forall i :: 0 <= i < |r| ==> IsDigit(r[i]) || r[i] == '.' by {
        forall i | 0 <= i < |r|
          ensures IsDigit(r[i]) || r[i] == '.'
        {
          if i < |whole| {
            assert r[i] == whole[i];
          } else if i > |whole| {
            assert r[i] == frac[i - |whole| - 1];
          }
        }
      }
    }
    assert forall i :: 0 <= i < |r| ==> r[i] != '-';
  }

  lemma RenderIsPointed(d: Dec)
    requires d.scale > 0
    ensures Render(d) == Pointed(Quotient(d.units, Pow10(d.scale)), Remainder(d.units, Pow10(d.scale)), d.scale)
  {
  }

  lemma RenderScaledRoundTrip(d: Dec)
    requires d.scale > 0
    ensures '-' !in Render(d)
    ensures ParseUnsigned(Render(d)) == Some(Value(d))
  {
    RenderIsPointed(d);
    PointedRoundTrip(Quotient(d.units, Pow10(d.scale)), Remainder(d.units, Pow10(d.scale)), d.scale);
    ValueByParts(d);
  }

  /** Parsing the rendering of a decimal gives back its value. */
  lemma RenderRoundTrip(d: Dec)
    ensures '-' !in Render(d)
    ensures JsNumber(Render(d)) == Some(Value(d))
  {
    RenderHasNoMinus(d);
    if d.scale == 0 {
      DigitsValueOfNatToString(d.units);
      assert '.' !in Render(d);
      assert Value(d) == d.units as real;
    } else {
      RenderScaledRoundTrip(d);
    }
  }
}
