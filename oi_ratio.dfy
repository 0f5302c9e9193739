/** The open-interest ratio: mean of the last 3 `oi` readings over the mean
    of the last 10, undefined for short series and for a zero 10-mean. The
    tiered and the flat monitor compute it identically. */
module OiRatio {
  import opened Wrappers
  import opened Rows

  const LongWindow: nat := 10
  const ShortWindow: nat := 3

  /** `calculate_oi_ratio(df)` on a series in timestamp order. */
  function CalculateOiRatio(s: seq<Row>): (r: Option<real>)
    ensures |s| < LongWindow ==> r == None
    ensures r.Some? ==> |s| >= LongWindow && Sum(OiColumn(s[|s| - LongWindow..])) != 0.0
    ensures r.Some? ==> r.value * Mean(OiColumn(s[|s| - LongWindow..])) == Mean(OiColumn(s[|s| - ShortWindow..]))
  {
    if |s| < LongWindow then None
    else
      var recent := s[|s| - LongWindow..];
      var recent3Avg := Mean(OiColumn(recent[LongWindow - ShortWindow..]));
      var recent10Avg := Mean(OiColumn(recent));
      assert recent[LongWindow - ShortWindow..] == s[|s| - ShortWindow..];
      if recent10Avg == 0.0 then None else Some(recent3Avg / recent10Avg)
  }

  /** With at least ten rows the ratio is undefined only when the last ten
      readings sum to zero. */
  lemma OiRatioDefinedIff(s: seq<Row>)
    requires |s| >= LongWindow
    ensures CalculateOiRatio(s).Some? <==> Sum(OiColumn(s[|s| - LongWindow..])) != 0.0
  {
  }

  /** Only the last ten rows matter: older history never changes the ratio. */
  lemma OiRatioUsesLastTen(older: seq<Row>, s: seq<Row>)
    requires |s| >= LongWindow
    ensures CalculateOiRatio(older + s) == CalculateOiRatio(s)
  {
    var t := older + s;
    assert t[|t| - LongWindow..] == s[|s| - LongWindow..];
  }

  /** Constant non-zero open interest gives a ratio of exactly 1. */
  lemma {:induction false} OiRatioOfConstant(s: seq<Row>, c: real)
    requires |s| >= LongWindow && c != 0.0
    requires forall i :: 0 <= i < |s| ==> s[i].oi == c
    ensures CalculateOiRatio(s) == Some(1.0)
  {
    var recent := s[|s| - LongWindow..];
    var last3 := recent[LongWindow - ShortWindow..];
    SumConstant(OiColumn(recent), c);
    SumConstant(OiColumn(last3), c);
    assert Mean(OiColumn(recent)) == c;
    assert Mean(OiColumn(last3)) == c;
    assert c / c == 1.0;
  }

  /** With non-negative open interest the short mean never exceeds 10/3 of
      the long mean, so the ratio lies in [0, 10/3]: a ratio threshold of
      10/3 or more can never be exceeded. */
  lemma {:induction false} OiRatioBounded(s: seq<Row>)
    requires forall i :: 0 <= i < |s| ==> s[i].oi >= 0.0
    ensures CalculateOiRatio(s).Some? ==> 0.0 <= CalculateOiRatio(s).value <= 10.0 / 3.0
  {
    if |s| >= LongWindow {
      var recent := s[|s| - LongWindow..];
      var first7 := OiColumn(recent[..LongWindow - ShortWindow]);
      var last3 := OiColumn(recent[LongWindow - ShortWindow..]);
      assert OiColumn(recent) == first7 + last3;
      SumAppend(first7, last3);
      SumNonNegative(first7);
      SumNonNegative(last3);
      var s3, s10 := Sum(last3), Sum(OiColumn(recent));
      assert s3 <= s10;
      assert recent[LongWindow - ShortWindow..] == s[|s| - ShortWindow..];
      if CalculateOiRatio(s).Some? {
        QuotientBounds(CalculateOiRatio(s).value, s3 / 3.0, s10 / 10.0, 10.0 / 3.0);
      }
    }
  }

  /** A quotient of a non-negative numerator bounded by k times a positive
      denominator lies in [0, k]. */
  lemma QuotientBounds(r: real, a: real, b: real, k: real)
    requires b > 0.0 && 0.0 <= a <= k * b && r * b == a
    ensures 0.0 <= r <= k
  {
  }

  /** Positive open interest over the last ten rows always gives a ratio. */
  lemma OiRatioDefinedForPositive(s: seq<Row>)
    requires |s| >= LongWindow
    requires forall i :: |s| - LongWindow <= i < |s| ==> s[i].oi > 0.0
    ensures CalculateOiRatio(s).Some?
  {
    SumPositive(OiColumn(s[|s| - LongWindow..]));
  }

  /** Seven readings of 100 followed by three of 400: the 3-mean is 400,
      the 10-mean (700 + 1200) / 10 = 190, so the ratio is 40/19 (about
      2.105), above the default threshold 2. */
  lemma {:induction false} OiRatioSpikeExample(s: seq<Row>)
    requires |s| == 10
    requires forall i :: 0 <= i < 7 ==> s[i].oi == 100.0
    requires forall i :: 7 <= i < 10 ==> s[i].oi == 400.0
    ensures CalculateOiRatio(s) == Some(40.0 / 19.0)
    ensures 40.0 / 19.0 > 2.0
  {
    var first7, last3 := OiColumn(s[..7]), OiColumn(s[7..]);
    assert s[|s| - LongWindow..] == s;
    assert OiColumn(s) == first7 + last3;
    SumAppend(first7, last3);
    SumConstant(first7, 100.0);
    SumConstant(last3, 400.0);
    assert Mean(OiColumn(s)) == 190.0;
    assert Mean(last3) == 400.0;
  }
}
