/** The monitoring pass: check every symbol of the data directory and list
    the ones that meet the alert conditions, then hand each alert to the
    Telegram bot. Two variants exist: the tiered one of the all-in-one
    system (market-cap tiers, configurable thresholds) and the flat one of
    the stand-alone monitor (fixed thresholds, ten-row minimum).
    The directory listing is the parameter `names` (its order is whatever
    the file system returns); `caps` is the market-cap lookup; `faults`
    are the symbols for which checking raised, which the loop skips. */
module Monitor {
  import opened Wrappers
  import opened Rows
  import opened Storage
  import opened OiRatio
  import opened AlertPolicy

  /** One alert record; the flat monitor's alerts carry no market cap. */
  datatype Alert = Alert(
    symbol: string,
    fundingRate: Option<real>,
    oiRatio: Option<real>,
    currentOi: Option<real>,
    marketCap: Option<real>)

  /** The tiered verdict for one symbol of the directory. */
  function TieredCheck(files: map<string, CsvFile>, caps: string -> Option<real>, symbol: string, th: Thresholds): TieredVerdict {
    CheckConditionsTiered(LoadOrNone(files, symbol), caps(symbol), th)
  }

  /** The alert a tiered verdict becomes. */
  function TieredAlertOf(symbol: string, v: TieredVerdict): Alert {
    Alert(symbol, v.fundingRate, v.oiRatio, v.currentOi, v.marketCap)
  }

  /** The flat verdict for one symbol of the directory. */
  function FlatCheck(files: map<string, CsvFile>, symbol: string): FlatVerdict {
    CheckConditionsFlat(LoadOrNone(files, symbol))
  }

  function FlatAlertOf(symbol: string, v: FlatVerdict): Alert {
    Alert(symbol, v.fundingRate, v.oiRatio, v.currentOi, None)
  }

  /** The tiered alert list after the loop has visited `names`. */
  function TieredAlerts(files: map<string, CsvFile>, names: seq<string>, caps: string -> Option<real>,
                        faults: set<string>, th: Thresholds): seq<Alert>
  {
    if names == [] then []
    else
      var before := TieredAlerts(files, names[..|names| - 1], caps, faults, th);
      var symbol := names[|names| - 1];
      var v := TieredCheck(files, caps, symbol, th);
      if symbol !in faults && v.conditionMet then before + [TieredAlertOf(symbol, v)] else before
  }

  /** The flat alert list after the loop has visited `names`. */
  function FlatAlerts(files: map<string, CsvFile>, names: seq<string>, faults: set<string>): seq<Alert> {
    if names == [] then []
    else
      var before := FlatAlerts(files, names[..|names| - 1], faults);
      var symbol := names[|names| - 1];
      var v := FlatCheck(files, symbol);
      if symbol !in faults && v.conditionMet then before + [FlatAlertOf(symbol, v)] else before
  }

  function Symbols(alerts: seq<Alert>): (r: seq<string>)
    ensures |r| == |alerts|
    ensures forall i :: 0 <= i < |alerts| ==> r[i] == alerts[i].symbol
  {
    if alerts == [] then [] else Symbols(alerts[..|alerts| - 1]) + [alerts[|alerts| - 1].symbol]
  }

  /** `monitor_all_symbols()` of the all-in-one system (the returned list). */
  method MonitorAllSymbolsTiered(files: map<string, CsvFile>, names: seq<string>, caps: string -> Option<real>,
                                 faults: set<string>, th: Thresholds)
    returns (alerts: seq<Alert>)
    ensures alerts == TieredAlerts(files, names, caps, faults, th)
  {
    alerts := [];
    var i := 0;
    while i < |names|
      invariant 0 <= i <= |names|
      invariant alerts == TieredAlerts(files, names[..i], caps, faults, th)
    {
      assert names[..i + 1][..i] == names[..i];
      var symbol := names[i];
      if symbol !in faults {
        var v := CheckConditionsTiered(LoadOrNone(files, symbol), caps(symbol), th);
        if v.conditionMet {
          alerts := alerts + [TieredAlertOf(symbol, v)];
        }
      }
      i := i + 1;
    }
    assert names[..i] == names;
  }

  /** `monitor_all_symbols()` of the stand-alone monitor. */
  method MonitorAllSymbolsFlat(files: map<string, CsvFile>, names: seq<string>, faults: set<string>)
    returns (alerts: seq<Alert>)
    ensures alerts == FlatAlerts(files, names, faults)
  {
    alerts := [];
    var i := 0;
    while i < |names|
      invariant 0 <= i <= |names|
      invariant alerts == FlatAlerts(files, names[..i], faults)
    {
      assert names[..i + 1][..i] == names[..i];
      var symbol := names[i];
      if symbol !in faults {
        var v := CheckConditionsFlat(LoadOrNone(files, symbol));
        if v.conditionMet {
          alerts := alerts + [FlatAlertOf(symbol, v)];
        }
      }
      i := i + 1;
    }
    assert names[..i] == names;
  }

  /** An alert is listed exactly when its symbol is in the directory, did
      not fault, and meets the tiered conditions; its fields are that
      verdict's values. */
  lemma {:induction false} TieredAlertsMembers(files: map<string, CsvFile>, names: seq<string>, caps: string -> Option<real>,
                                               faults: set<string>, th: Thresholds)
    ensures |TieredAlerts(files, names, caps, faults, th)| <= |names|
    ensures forall a :: a in TieredAlerts(files, names, caps, faults, th) ==>
              && a.symbol in names && a.symbol !in faults
              && TieredCheck(files, caps, a.symbol, th).conditionMet
              && a == TieredAlertOf(a.symbol, TieredCheck(files, caps, a.symbol, th))
    ensures forall s :: s in names && s !in faults && TieredCheck(files, caps, s, th).conditionMet ==>
              TieredAlertOf(s, TieredCheck(files, caps, s, th)) in TieredAlerts(files, names, caps, faults, th)
  {
    if names != [] {
      var init := names[..|names| - 1];
      TieredAlertsMembers(files, init, caps, faults, th);
      assert forall s :: s in names ==> s in init || s == names[|names| - 1];
    }
  }

  /** The same for the flat monitor. */
  lemma {:induction false} FlatAlertsMembers(files: map<string, CsvFile>, names: seq<string>, faults: set<string>)
    ensures |FlatAlerts(files, names, faults)| <= |names|
    ensures forall a :: a in FlatAlerts(files, names, faults) ==>
              && a.symbol in names && a.symbol !in faults
              && FlatCheck(files, a.symbol).conditionMet
              && a == FlatAlertOf(a.symbol, FlatCheck(files, a.symbol))
    ensures forall s :: s in names && s !in faults && FlatCheck(files, s).conditionMet ==>
              FlatAlertOf(s, FlatCheck(files, s)) in FlatAlerts(files, names, faults)
  {
    if names != [] {
      var init := names[..|names| - 1];
      FlatAlertsMembers(files, init, faults);
      assert forall s :: s in names ==> s in init || s == names[|names| - 1];
    }
  }

  /** When every symbol is known to be large-cap, the tiered pass at the
      default thresholds alerts on exactly the symbols the flat pass does,
      in the same order. */
  lemma {:induction false} FlatMatchesLargeCapTier(files: map<string, CsvFile>, names: seq<string>,
                                                   caps: string -> Option<real>, faults: set<string>)
    requires forall s :: s in names ==> caps(s).Some? && caps(s).value >= DefaultThresholds.marketCap
    ensures Symbols(FlatAlerts(files, names, faults)) == Symbols(TieredAlerts(files, names, caps, faults, DefaultThresholds))
  {
    if names != [] {
      var init := names[..|names| - 1];
      var s := names[|names| - 1];
      FlatMatchesLargeCapTier(files, init, caps, faults);
      FlatEqualsLargeCapTier(LoadOrNone(files, s), caps(s).value);
    }
  }

  /** Whether `send_alerts` asks for a chart: the symbol's data loads and
      has at least five rows. */
  predicate ChartRequested(files: map<string, CsvFile>, symbol: string) {
    LoadOrNone(files, symbol).Some? && |LoadOrNone(files, symbol).value| >= 5
  }

  /** One message handed to the bot. */
  datatype Message = Message(alert: Alert, withChart: bool)

  /** The number of alerts whose message the bot reports as delivered. */
  function DeliveredCount(alerts: seq<Alert>, delivered: set<string>): (n: nat)
    ensures n <= |alerts|
  {
    if alerts == [] then 0
    else DeliveredCount(alerts[..|alerts| - 1], delivered) + (if alerts[|alerts| - 1].symbol in delivered then 1 else 0)
  }

  /** Every alert delivered gives the full count, none delivered gives 0. */
  lemma {:induction false} DeliveredCountExtremes(alerts: seq<Alert>, delivered: set<string>)
    ensures (forall i :: 0 <= i < |alerts| ==> alerts[i].symbol in delivered) ==> DeliveredCount(alerts, delivered) == |alerts|
    ensures (forall i :: 0 <= i < |alerts| ==> alerts[i].symbol !in delivered) ==> DeliveredCount(alerts, delivered) == 0
  {
    if alerts != [] {
      DeliveredCountExtremes(alerts[..|alerts| - 1], delivered);
    }
  }

  /** `send_alerts(alerts)` of the stand-alone monitor: one message per
      alert, in order; `delivered` is the set of symbols for which the bot
      (and the chart generation before it) succeeded. */
  method SendAlerts(files: map<string, CsvFile>, alerts: seq<Alert>, delivered: set<string>)
    returns (messages: seq<Message>, successCount: nat)
    ensures |messages| == |alerts|
    ensures forall i :: 0 <= i < |alerts| ==> messages[i] == Message(alerts[i], ChartRequested(files, alerts[i].symbol))
    ensures successCount == DeliveredCount(alerts, delivered)
    ensures successCount <= |alerts|
  {
    messages, successCount := [], 0;
    var i := 0;
    while i < |alerts|
      invariant 0 <= i <= |alerts|
      invariant |messages| == i
      invariant forall j :: 0 <= j < i ==> messages[j] == Message(alerts[j], ChartRequested(files, alerts[j].symbol))
      invariant successCount == DeliveredCount(alerts[..i], delivered)
    {
      assert alerts[..i + 1][..i] == alerts[..i];
      var alert := alerts[i];
      var withChart := ChartRequested(files, alert.symbol);
      messages := messages + [Message(alert, withChart)];
      if alert.symbol in delivered {
        successCount := successCount + 1;
      }
      i := i + 1;
    }
    assert alerts[..i] == alerts;
  }

  /** `run_monitoring()`: (alerts found, alerts delivered). */
  method RunMonitoring(files: map<string, CsvFile>, names: seq<string>, faults: set<string>, delivered: set<string>)
    returns (found: nat, sent: nat)
    ensures found == |FlatAlerts(files, names, faults)|
    ensures sent == DeliveredCount(FlatAlerts(files, names, faults), delivered)
    ensures sent <= found
  {
    var alerts := MonitorAllSymbolsFlat(files, names, faults);
    if alerts != [] {
      var messages;
      messages, sent := SendAlerts(files, alerts, delivered);
      found := |alerts|;
    } else {
      found, sent := 0, 0;
    }
  }
}
