/** The two alert rules. The tiered rule of the all-in-one monitor: a small
    or unknown market cap needs only the funding-rate condition, a large cap
    needs the funding-rate and the open-interest condition. The flat rule of
    the stand-alone monitor: always both conditions, with fixed thresholds
    and no market-cap tier. Both are pure functions of the loaded series. */
module AlertPolicy {
  import opened Wrappers
  import opened Rows
  import opened OiRatio

  datatype Thresholds = Thresholds(funding: real, oiRatio: real, marketCap: real)

  /** FUNDING_RATE_THRESHOLD 0.001, OI_RATIO_THRESHOLD 2.0,
      MARKET_CAP_THRESHOLD 100,000,000 (the defaults of the configuration). */
  const DefaultThresholds := Thresholds(0.001, 2.0, 100000000.0)

  /** The flat rule's hard-coded thresholds. */
  const FlatFundingThreshold: real := 0.001
  const FlatOiRatioThreshold: real := 2.0

  function Abs(x: real): real { if x < 0.0 then -x else x }

  /** Market cap unknown or below the threshold. */
  predicate IsSmallCap(marketCap: Option<real>, th: Thresholds) {
    marketCap.None? || marketCap.value < th.marketCap
  }

  /** The tuple returned by the tiered `check_conditions`. */
  datatype TieredVerdict = TieredVerdict(
    conditionMet: bool,
    fundingRate: Option<real>,
    oiRatio: Option<real>,
    currentOi: Option<real>,
    marketCap: Option<real>)

  /** The tuple returned by the flat `check_conditions`. */
  datatype FlatVerdict = FlatVerdict(
    conditionMet: bool,
    fundingRate: Option<real>,
    oiRatio: Option<real>,
    currentOi: Option<real>)

  /** The tiered `check_conditions` on the loaded series (`None`: no file or
      an unreadable one) and the market cap looked up for the symbol. */
  function CheckConditionsTiered(df: Option<seq<Row>>, marketCap: Option<real>, th: Thresholds): (v: TieredVerdict)
    // the market cap is passed through unchanged
    ensures v.marketCap == marketCap
    // no data: no alert and no values
    ensures (df.None? || df.value == []) ==> v == TieredVerdict(false, None, None, None, marketCap)
    // otherwise the values are those of the latest row
    ensures df.Some? && df.value != [] ==>
              && v.fundingRate == Some(df.value[|df.value| - 1].lastFundingRate)
              && v.currentOi == Some(df.value[|df.value| - 1].oi)
    // small cap: the funding condition alone decides and no ratio is reported
    ensures IsSmallCap(marketCap, th) ==> v.oiRatio == None
    ensures IsSmallCap(marketCap, th) && df.Some? && df.value != [] ==>
              (v.conditionMet <==> Abs(df.value[|df.value| - 1].lastFundingRate) > th.funding)
    // large cap: both conditions, and a reported ratio is the series' ratio
    ensures !IsSmallCap(marketCap, th) ==>
              (v.conditionMet <==> && df.Some? && df.value != []
                                   && Abs(df.value[|df.value| - 1].lastFundingRate) > th.funding
                                   && CalculateOiRatio(df.value).Some?
                                   && CalculateOiRatio(df.value).value > th.oiRatio)
    ensures !IsSmallCap(marketCap, th) && df.Some? && df.value != [] ==> v.oiRatio == CalculateOiRatio(df.value)
  {
    if df.None? || |df.value| == 0 then TieredVerdict(false, None, None, None, marketCap)
    else
      var s := df.value;
      var latest := s[|s| - 1];
      var fundingCondition := Abs(latest.lastFundingRate) > th.funding;
      if IsSmallCap(marketCap, th) then
        TieredVerdict(fundingCondition, Some(latest.lastFundingRate), None, Some(latest.oi), marketCap)
      else if |s| < 10 then
        TieredVerdict(false, Some(latest.lastFundingRate), None, Some(latest.oi), marketCap)
      else
        match CalculateOiRatio(s)
        case None => TieredVerdict(false, Some(latest.lastFundingRate), None, Some(latest.oi), marketCap)
        case Some(ratio) =>
          TieredVerdict(fundingCondition && ratio > th.oiRatio, Some(latest.lastFundingRate), Some(ratio), Some(latest.oi), marketCap)
  }

  /** The flat `check_conditions`: fewer than ten rows gives no values at
      all; an undefined ratio still reports funding rate and open interest. */
  function CheckConditionsFlat(df: Option<seq<Row>>): (v: FlatVerdict)
    ensures (df.None? || |df.value| < LongWindow) ==> v == FlatVerdict(false, None, None, None)
    ensures df.Some? && |df.value| >= LongWindow ==>
              && v.fundingRate == Some(df.value[|df.value| - 1].lastFundingRate)
              && v.currentOi == Some(df.value[|df.value| - 1].oi)
              && v.oiRatio == CalculateOiRatio(df.value)
    ensures v.conditionMet <==> && df.Some? && |df.value| >= LongWindow
                                && Abs(df.value[|df.value| - 1].lastFundingRate) > FlatFundingThreshold
                                && CalculateOiRatio(df.value).Some?
                                && CalculateOiRatio(df.value).value > FlatOiRatioThreshold
  {
    if df.None? || |df.value| < 10 then FlatVerdict(false, None, None, None)
    else
      var s := df.value;
      var latest := s[|s| - 1];
      var fundingCondition := Abs(latest.lastFundingRate) > 0.001;
      match CalculateOiRatio(s)
      case None => FlatVerdict(false, Some(latest.lastFundingRate), None, Some(latest.oi))
      case Some(ratio) =>
        FlatVerdict(fundingCondition && ratio > 2.0, Some(latest.lastFundingRate), Some(ratio), Some(latest.oi))
  }

  /** The large-cap tier is stricter than the small-cap tier: whatever alerts
      as a large cap would alert as a small or unknown cap. */
  lemma LargeCapImpliesSmallCap(df: Option<seq<Row>>, large: real, small: Option<real>, th: Thresholds)
    requires large >= th.marketCap && IsSmallCap(small, th)
    ensures CheckConditionsTiered(df, Some(large), th).conditionMet ==> CheckConditionsTiered(df, small, th).conditionMet
  {
  }

  /** The small-cap verdict depends on the latest row alone, never on the
      length or open interest of the history before it. */
  lemma SmallCapIgnoresHistory(h1: seq<Row>, h2: seq<Row>, latest: Row, marketCap: Option<real>, th: Thresholds)
    requires IsSmallCap(marketCap, th)
    ensures CheckConditionsTiered(Some(h1 + [latest]), marketCap, th) == CheckConditionsTiered(Some(h2 + [latest]), marketCap, th)
  {
  }

  /** The flat rule is the tiered rule's large-cap branch at the default
      thresholds: the two agree on every series. */
  lemma FlatEqualsLargeCapTier(df: Option<seq<Row>>, marketCap: real)
    requires marketCap >= DefaultThresholds.marketCap
    ensures CheckConditionsFlat(df).conditionMet == CheckConditionsTiered(df, Some(marketCap), DefaultThresholds).conditionMet
  {
  }

  /** With non-negative open interest, a large cap never alerts when the
      ratio threshold is 10/3 or more. */
  lemma LargeCapUnreachableAboveBound(df: Option<seq<Row>>, marketCap: real, th: Thresholds)
    requires marketCap >= th.marketCap && th.oiRatio >= 10.0 / 3.0
    requires df.Some? ==> forall i :: 0 <= i < |df.value| ==> df.value[i].oi >= 0.0
    ensures !CheckConditionsTiered(df, Some(marketCap), th).conditionMet
  {
    if df.Some? {
      OiRatioBounded(df.value);
    }
  }

  /** Identical inputs give identical verdicts; a funding rate of 0.002 with
      a 50M cap alerts whatever the history, while a 500M cap needs a ratio
      above 2 and a funding rate above 0.001. */
  lemma TieredExamples(df: seq<Row>, last: Row)
    requires df != [] && df[|df| - 1] == last
    ensures last.lastFundingRate == 0.002 ==>
              CheckConditionsTiered(Some(df), Some(50000000.0), DefaultThresholds).conditionMet
    ensures CalculateOiRatio(df) == Some(1.5) ==>
              !CheckConditionsTiered(Some(df), Some(500000000.0), DefaultThresholds).conditionMet
    ensures last.lastFundingRate == 0.0005 ==>
              !CheckConditionsTiered(Some(df), Some(500000000.0), DefaultThresholds).conditionMet
  {
  }
}
