/** Basis arithmetic and the assembly of one snapshot row from the exchange
    responses. Each response is represented by the value of the field read
    from it; `None` covers a failed request, an empty response and a missing
    key alike, which the source all maps to 0. The clock is the parameter
    `now`. */
module Snapshot {
  import opened Wrappers
  import opened Rows

  datatype Basis = Basis(basis: real, basisPercent: real)

  /** `calculate_basis(mark_price, index_price)` of the snapshot classes:
      both values are 0 when the index price is 0. */
  function CalculateBasis(markPrice: real, indexPrice: real): (b: Basis)
    ensures indexPrice == 0.0 ==> b == Basis(0.0, 0.0)
    ensures indexPrice != 0.0 ==> indexPrice + b.basis == markPrice
    ensures indexPrice != 0.0 ==> b.basisPercent * indexPrice == 100.0 * b.basis
  {
    if indexPrice == 0.0 then Basis(0.0, 0.0)
    else
      var basis := markPrice - indexPrice;
      Basis(basis, (basis / indexPrice) * 100.0)
  }

  /** The inline basis of the all-in-one collector: the basis is always
      mark minus index; only the percentage is 0 for a zero index price. */
  function AutoBasis(markPrice: real, indexPrice: real): (b: Basis)
    ensures indexPrice + b.basis == markPrice
    ensures indexPrice == 0.0 ==> b.basisPercent == 0.0
    ensures indexPrice != 0.0 ==> b.basisPercent * indexPrice == 100.0 * b.basis
  {
    var basis := markPrice - indexPrice;
    Basis(basis, if indexPrice != 0.0 then (basis / indexPrice) * 100.0 else 0.0)
  }

  /** The two basis computations disagree exactly when the index price is 0
      and the mark price is not. */
  lemma BasisVariantsAgreeIff(markPrice: real, indexPrice: real)
    ensures CalculateBasis(markPrice, indexPrice) == AutoBasis(markPrice, indexPrice)
            <==> indexPrice != 0.0 || markPrice == 0.0
  {
  }

  /** For a positive index price the percentage has the sign of the basis. */
  lemma BasisPercentSign(markPrice: real, indexPrice: real)
    requires indexPrice > 0.0
    ensures var b := CalculateBasis(markPrice, indexPrice);
            && (b.basisPercent > 0.0 <==> b.basis > 0.0)
            && (b.basisPercent < 0.0 <==> b.basis < 0.0)
            && (b.basisPercent == 0.0 <==> markPrice == indexPrice)
  {
    var b := CalculateBasis(markPrice, indexPrice);
    assert b.basisPercent * indexPrice == 100.0 * b.basis;
    if b.basisPercent > 0.0 { assert b.basisPercent * indexPrice > 0.0; }
    if b.basisPercent < 0.0 { assert b.basisPercent * indexPrice < 0.0; }
    if b.basis > 0.0 { assert b.basisPercent * indexPrice > 0.0; }
    if b.basis < 0.0 { assert b.basisPercent * indexPrice < 0.0; }
  }

  /** The fields read from the responses for one symbol. `indexPrice` is the
      `indexPrice` field of the mark-price (premium index) response;
      `indexFallback` is the entry for the symbol in the index-info list,
      which only the stand-alone snapshot consults. */
  datatype Responses = Responses(
    markPrice: Option<real>,
    indexPrice: Option<real>,
    indexFallback: Option<real>,
    fundingRate: Option<real>,
    fundingTime: Option<int>,
    openInterest: Option<real>,
    longShortAccountRatio: Option<real>,
    topTraderAccountRatio: Option<real>,
    topTraderPositionRatio: Option<real>,
    takerBuySellRatio: Option<real>)

  const NoResponses := Responses(None, None, None, None, None, None, None, None, None, None)

  /** `get_index_price(symbol)`: the mark-price response's field when it
      has one, otherwise the index-info entry (`None` when neither). */
  function IndexLookup(resp: Responses): (r: Option<real>)
    ensures resp.indexPrice.Some? ==> r == resp.indexPrice
    ensures resp.indexPrice.None? ==> r == resp.indexFallback
  {
    if resp.indexPrice.Some? then resp.indexPrice else resp.indexFallback
  }

  /** `get_data_snapshot(symbol)` of the snapshot classes, as the row that
      `save_to_csv` writes. */
  function GetDataSnapshot(now: int, resp: Responses): (row: Row)
    ensures row.timestamp == now
    ensures Basis(row.basis, row.basisPercent) == CalculateBasis(row.markPrice, row.indexPrice)
  {
    var markPrice := resp.markPrice.GetOr(0.0);
    var indexPrice := IndexLookup(resp).GetOr(0.0);
    var basis := CalculateBasis(markPrice, indexPrice);
    Row(now, markPrice, indexPrice, basis.basis, basis.basisPercent,
        resp.fundingRate.GetOr(0.0), resp.fundingTime.GetOr(0), resp.openInterest.GetOr(0.0),
        resp.longShortAccountRatio.GetOr(0.0), resp.topTraderAccountRatio.GetOr(0.0),
        resp.topTraderPositionRatio.GetOr(0.0), resp.takerBuySellRatio.GetOr(0.0))
  }

  /** Every field whose response is missing reads 0, and every present field
      is copied: a stored 0 is indistinguishable from a missing reading. */
  lemma SnapshotDefaultsToZero(now: int, resp: Responses)
    ensures var row := GetDataSnapshot(now, resp);
            && row.markPrice == (if resp.markPrice.Some? then resp.markPrice.value else 0.0)
            && row.indexPrice == (if resp.indexPrice.Some? then resp.indexPrice.value
                                  else if resp.indexFallback.Some? then resp.indexFallback.value else 0.0)
            && row.lastFundingRate == (if resp.fundingRate.Some? then resp.fundingRate.value else 0.0)
            && row.nextFundingTime == (if resp.fundingTime.Some? then resp.fundingTime.value else 0)
            && row.oi == (if resp.openInterest.Some? then resp.openInterest.value else 0.0)
            && row.longShortAccountRatio == (if resp.longShortAccountRatio.Some? then resp.longShortAccountRatio.value else 0.0)
            && row.topTraderAccountRatio == (if resp.topTraderAccountRatio.Some? then resp.topTraderAccountRatio.value else 0.0)
            && row.topTraderPositionRatio == (if resp.topTraderPositionRatio.Some? then resp.topTraderPositionRatio.value else 0.0)
            && row.takerBuySellRatio == (if resp.takerBuySellRatio.Some? then resp.takerBuySellRatio.value else 0.0)
    ensures GetDataSnapshot(now, NoResponses) == Row(now, 0.0, 0.0, 0.0, 0.0, 0.0, 0, 0.0, 0.0, 0.0, 0.0, 0.0)
  {
  }

  /** `get_data_snapshot(symbol)` of the all-in-one collector. It reads mark
      and index price from the same response and writes eight columns; the
      four ratio columns it does not have are 0 here. */
  function GetAutoSnapshot(now: int, resp: Responses): (row: Row)
    ensures row.timestamp == now
    ensures Basis(row.basis, row.basisPercent) == AutoBasis(row.markPrice, row.indexPrice)
    ensures resp.markPrice.None? && resp.indexPrice.None? ==> row.markPrice == row.indexPrice == row.basis == 0.0
  {
    var markPrice := resp.markPrice.GetOr(0.0);
    var indexPrice := resp.indexPrice.GetOr(0.0);
    var basis := AutoBasis(markPrice, indexPrice);
    Row(now, markPrice, indexPrice, basis.basis, basis.basisPercent,
        resp.fundingRate.GetOr(0.0), resp.fundingTime.GetOr(0), resp.openInterest.GetOr(0.0),
        0.0, 0.0, 0.0, 0.0)
  }

  /** The all-in-one snapshot copies every field it has from the responses,
      with 0 for a missing one, and writes no ratio data: the four ratio
      fields are 0 whatever was fetched. It never consults the index-info
      list. */
  lemma AutoSnapshotDefaultsToZero(now: int, resp: Responses)
    ensures var row := GetAutoSnapshot(now, resp);
            && row.markPrice == (if resp.markPrice.Some? then resp.markPrice.value else 0.0)
            && row.indexPrice == (if resp.indexPrice.Some? then resp.indexPrice.value else 0.0)
            && row.lastFundingRate == (if resp.fundingRate.Some? then resp.fundingRate.value else 0.0)
            && row.nextFundingTime == (if resp.fundingTime.Some? then resp.fundingTime.value else 0)
            && row.oi == (if resp.openInterest.Some? then resp.openInterest.value else 0.0)
            && row.longShortAccountRatio == 0.0 && row.topTraderAccountRatio == 0.0
            && row.topTraderPositionRatio == 0.0 && row.takerBuySellRatio == 0.0
    ensures GetAutoSnapshot(now, NoResponses) == Row(now, 0.0, 0.0, 0.0, 0.0, 0.0, 0, 0.0, 0.0, 0.0, 0.0, 0.0)
  {
  }

  /** The two snapshots agree on timestamp, mark price, funding and open
      interest always. They read the same index price unless the mark-price
      response lacks one and the index-info list has the symbol; the
      stand-alone snapshot then takes the list's value and the all-in-one
      snapshot writes 0. With the same index price, the bases agree unless
      the index price is 0 and the mark price is not. */
  lemma AutoSnapshotAgreesWithSnapshot(now: int, resp: Responses)
    ensures var a, d := GetAutoSnapshot(now, resp), GetDataSnapshot(now, resp);
            && a.timestamp == d.timestamp && a.markPrice == d.markPrice
            && a.lastFundingRate == d.lastFundingRate && a.nextFundingTime == d.nextFundingTime && a.oi == d.oi
    ensures var a, d := GetAutoSnapshot(now, resp), GetDataSnapshot(now, resp);
            resp.indexPrice.Some? || resp.indexFallback.None? ==>
              && a.indexPrice == d.indexPrice
              && ((a.basis, a.basisPercent) == (d.basis, d.basisPercent) <==> a.indexPrice != 0.0 || a.markPrice == 0.0)
    ensures var a, d := GetAutoSnapshot(now, resp), GetDataSnapshot(now, resp);
            resp.indexPrice.None? && resp.indexFallback.Some? ==>
              && a.indexPrice == 0.0 && d.indexPrice == resp.indexFallback.value
              && a.basis == a.markPrice
  {
    var a := GetAutoSnapshot(now, resp);
    BasisVariantsAgreeIff(a.markPrice, a.indexPrice);
  }
}
