/** The offline analysis tool: per-symbol changes over a recent window, and
    the symbols with the most extreme changes. The clock is the parameter
    `now` (seconds); timestamps are seconds as in the rest of the model. */
module Analyzer {
  import opened Wrappers
  import opened Rows
  import opened Storage
  import opened StableSort
  import opened Symbols

  /** The change record `analyze_changes` returns on success. A change
      percentage the source computes by dividing by a zero mark price is
      not a finite number; it is `None` here. */
  datatype Changes = Changes(
    symbol: string,
    periodHours: int,
    dataPoints: nat,
    markPriceChange: real,
    markPriceChangePct: Option<real>,
    basisChange: real,
    basisPercentChange: real,
    fundingRateChange: real,
    oiChange: real,
    oiChangePct: real,
    accountRatioChange: real,
    takerRatioChange: real,
    latestTimestamp: int,
    oldestTimestamp: int)

  /** The error records: no file, a file the reader rejects (the source's
      caught exception), fewer than two rows, fewer than two in the window. */
  datatype AnalysisError = MissingFile | ReadFailed | InsufficientData | InsufficientWindow

  /** The start of the window: `hours` hours before `now`. */
  function Cutoff(now: int, hours: int): int { now - hours * 3600 }

  /** The rows at or after the cutoff, in their order. */
  function Window(s: seq<Row>, cutoff: int): seq<Row> {
    if s == [] then []
    else Window(s[..|s| - 1], cutoff) + (if s[|s| - 1].timestamp >= cutoff then [s[|s| - 1]] else [])
  }

  /** The window keeps every copy of each row at or after the cutoff and
      nothing else. */
  lemma {:induction false} WindowCounts(s: seq<Row>, cutoff: int)
    ensures forall x :: multiset(Window(s, cutoff))[x] == if x.timestamp >= cutoff then multiset(s)[x] else 0
  {
    if s != [] {
      var init := s[..|s| - 1];
      WindowCounts(init, cutoff);
      assert s == init + [s[|s| - 1]];
    }
  }

  /** Which rows fall in the window does not depend on their order, so
      neither does its size: the unspecified tie order of the loader's sort
      cannot change `data_points`. */
  lemma WindowOrderIndependent(a: seq<Row>, b: seq<Row>, cutoff: int)
    requires multiset(a) == multiset(b)
    ensures multiset(Window(a, cutoff)) == multiset(Window(b, cutoff))
    ensures |Window(a, cutoff)| == |Window(b, cutoff)|
  {
    var ma := multiset(Window(a, cutoff));
    var mb := multiset(Window(b, cutoff));
    WindowCounts(a, cutoff);
    WindowCounts(b, cutoff);
    forall x ensures ma[x] == mb[x] {
    }
    assert ma == mb;
    assert |Window(a, cutoff)| == |ma|;
  }

  lemma {:induction false} WindowEmpty(s: seq<Row>, cutoff: int)
    requires forall i :: 0 <= i < |s| ==> s[i].timestamp < cutoff
    ensures Window(s, cutoff) == []
  {
    if s != [] {
      WindowEmpty(s[..|s| - 1], cutoff);
    }
  }

  /** On a series sorted by time the window is a suffix. */
  lemma {:induction false} WindowIsSuffix(s: seq<Row>, cutoff: int)
    requires SortedByTime(s)
    ensures var w := Window(s, cutoff);
            |w| <= |s| && w == s[|s| - |w|..]
  {
    if s != [] {
      var init := s[..|s| - 1];
      var last := s[|s| - 1];
      if last.timestamp >= cutoff {
        WindowIsSuffix(init, cutoff);
        var k := |Window(init, cutoff)|;
        assert init == s[..|s| - 1];
        assert init[|init| - k..] == s[|s| - (k + 1)..|s| - 1];
        assert s[|s| - (k + 1)..] == s[|s| - (k + 1)..|s| - 1] + [last];
      } else {
        WindowEmpty(s, cutoff);
      }
    }
  }

  /** The change record between the oldest and the latest row of a window. */
  function ChangeBetween(symbol: string, hours: int, w: seq<Row>): (c: Changes)
    requires |w| >= 2
    ensures c.symbol == symbol && c.periodHours == hours && c.dataPoints == |w|
    ensures c.oldestTimestamp == w[0].timestamp && c.latestTimestamp == w[|w| - 1].timestamp
    // each change carries the oldest value to the latest one
    ensures w[0].markPrice + c.markPriceChange == w[|w| - 1].markPrice
    ensures w[0].basis + c.basisChange == w[|w| - 1].basis
    ensures w[0].basisPercent + c.basisPercentChange == w[|w| - 1].basisPercent
    ensures w[0].lastFundingRate + c.fundingRateChange == w[|w| - 1].lastFundingRate
    ensures w[0].oi + c.oiChange == w[|w| - 1].oi
    ensures w[0].longShortAccountRatio + c.accountRatioChange == w[|w| - 1].longShortAccountRatio
    ensures w[0].takerBuySellRatio + c.takerRatioChange == w[|w| - 1].takerBuySellRatio
    // percentages are relative to the oldest value
    ensures c.markPriceChangePct.Some? <==> w[0].markPrice != 0.0
    ensures c.markPriceChangePct.Some? ==> c.markPriceChangePct.value * w[0].markPrice == 100.0 * c.markPriceChange
    ensures w[0].markPrice > 0.0 ==> (c.markPriceChangePct.value > 0.0 <==> w[|w| - 1].markPrice > w[0].markPrice)
    ensures w[0].oi == 0.0 ==> c.oiChangePct == 0.0
    ensures w[0].oi != 0.0 ==> c.oiChangePct * w[0].oi == 100.0 * c.oiChange
  {
    var latest := w[|w| - 1];
    var oldest := w[0];
    var priceChange := latest.markPrice - oldest.markPrice;
    var oiChange := latest.oi - oldest.oi;
    Changes(
      symbol, hours, |w|,
      priceChange,
      if oldest.markPrice != 0.0 then Some(priceChange / oldest.markPrice * 100.0) else None,
      latest.basis - oldest.basis,
      latest.basisPercent - oldest.basisPercent,
      latest.lastFundingRate - oldest.lastFundingRate,
      oiChange,
      if oldest.oi != 0.0 then oiChange / oldest.oi * 100.0 else 0.0,
      latest.longShortAccountRatio - oldest.longShortAccountRatio,
      latest.takerBuySellRatio - oldest.takerBuySellRatio,
      latest.timestamp,
      oldest.timestamp)
  }

  /** The rows stored for a readable symbol. */
  function Stored(files: map<string, CsvFile>, symbol: string): seq<Row>
    requires symbol in files && ReadCsv(files[symbol]).Some?
  {
    ReadCsv(files[symbol]).value
  }

  /** `analyze_changes(symbol, hours)`. Each error is stated on the stored
      rows themselves, whatever order the loader's sort leaves ties in. */
  function AnalyzeChanges(files: map<string, CsvFile>, symbol: string, hours: int, now: int): (r: Result<Changes, AnalysisError>)
    ensures r == Failure(MissingFile) <==> symbol !in files
    ensures r == Failure(ReadFailed) <==> symbol in files && ReadCsv(files[symbol]).None?
    ensures r == Failure(InsufficientData) <==>
              symbol in files && ReadCsv(files[symbol]).Some? && |Stored(files, symbol)| < 2
    ensures r == Failure(InsufficientWindow) <==>
              && symbol in files && ReadCsv(files[symbol]).Some? && |Stored(files, symbol)| >= 2
              && |Window(Stored(files, symbol), Cutoff(now, hours))| < 2
    ensures r.Success? ==>
              && symbol in files && ReadCsv(files[symbol]).Some?
              && r.value.symbol == symbol && r.value.periodHours == hours
              && r.value.dataPoints == |Window(Stored(files, symbol), Cutoff(now, hours))| >= 2
  {
    match LoadSymbolData(files, symbol)
    case NotFound => Failure(MissingFile)
    case Unreadable => Failure(ReadFailed)
    case Loaded(df) =>
      if |df| < 2 then Failure(InsufficientData)
      else
        var w := Window(df, Cutoff(now, hours));
        WindowOrderIndependent(df, Stored(files, symbol), Cutoff(now, hours));
        if |w| < 2 then Failure(InsufficientWindow)
        else Success(ChangeBetween(symbol, hours, w))
  }

  /** The window endpoints of a sorted copy of the stored rows: the last is
      the newest stored row, the first the oldest stored row at or after
      the cutoff. */
  lemma WindowEndpoints(stored: seq<Row>, df: seq<Row>, cutoff: int)
    requires SortedByTime(df) && multiset(df) == multiset(stored)
    requires |Window(df, cutoff)| >= 2
    ensures var w := Window(df, cutoff);
            && cutoff <= w[0].timestamp <= w[|w| - 1].timestamp
            && (forall i :: 0 <= i < |stored| ==> stored[i].timestamp <= w[|w| - 1].timestamp)
            && (forall i :: 0 <= i < |stored| && stored[i].timestamp >= cutoff ==> w[0].timestamp <= stored[i].timestamp)
  {
    var w := Window(df, cutoff);
    WindowIsSuffix(df, cutoff);
    WindowCounts(df, cutoff);
    assert w[0] == df[|df| - |w|] && w[|w| - 1] == df[|df| - 1];
    assert w[0] in multiset(w);
    forall i | 0 <= i < |stored|
      ensures stored[i].timestamp <= w[|w| - 1].timestamp
      ensures stored[i].timestamp >= cutoff ==> w[0].timestamp <= stored[i].timestamp
    {
      var x := stored[i];
      assert x in multiset(stored);
      assert x in multiset(df);
      var j :| 0 <= j < |df| && df[j] == x;
      if x.timestamp >= cutoff {
        assert multiset(w)[x] > 0;
        var k :| 0 <= k < |w| && w[k] == x;
        assert df[|df| - |w| + k] == x;
      }
    }
  }

  /** A successful analysis spans the window: its latest point is the newest
      stored row, its oldest point is the oldest stored row at or after the
      cutoff, and oldest comes no later than latest. */
  lemma AnalyzeChangesEndpoints(files: map<string, CsvFile>, symbol: string, hours: int, now: int)
    requires AnalyzeChanges(files, symbol, hours, now).Success?
    ensures var c := AnalyzeChanges(files, symbol, hours, now).value;
            var stored := Stored(files, symbol);
            && Cutoff(now, hours) <= c.oldestTimestamp <= c.latestTimestamp
            && (forall i :: 0 <= i < |stored| ==> stored[i].timestamp <= c.latestTimestamp)
            && (forall i :: 0 <= i < |stored| && stored[i].timestamp >= Cutoff(now, hours) ==>
                  c.oldestTimestamp <= stored[i].timestamp)
  {
    var df := LoadSymbolData(files, symbol).rows;
    WindowEndpoints(Stored(files, symbol), df, Cutoff(now, hours));
  }

  /** `get_available_symbols()`: the directory listing in code-point order. */
  function GetAvailableSymbols(listing: seq<string>): (symbols: seq<string>)
    ensures StringsSorted(symbols) && multiset(symbols) == multiset(listing)
  {
    SortStrings(listing)
  }

  /** The successful analyses, in symbol order. */
  function AllChanges(files: map<string, CsvFile>, symbols: seq<string>, hours: int, now: int): seq<Changes> {
    if symbols == [] then []
    else
      var r := AnalyzeChanges(files, symbols[|symbols| - 1], hours, now);
      AllChanges(files, symbols[..|symbols| - 1], hours, now) + (if r.Success? then [r.value] else [])
  }

  /** Every successful analysis is listed and nothing else. */
  lemma {:induction false} AllChangesMembers(files: map<string, CsvFile>, symbols: seq<string>, hours: int, now: int)
    ensures |AllChanges(files, symbols, hours, now)| <= |symbols|
    ensures forall c :: c in AllChanges(files, symbols, hours, now) ==>
              c.symbol in symbols && AnalyzeChanges(files, c.symbol, hours, now) == Success(c)
    ensures forall s :: s in symbols && AnalyzeChanges(files, s, hours, now).Success? ==>
              AnalyzeChanges(files, s, hours, now).value in AllChanges(files, symbols, hours, now)
  {
    if symbols != [] {
      AllChangesMembers(files, symbols[..|symbols| - 1], hours, now);
      assert forall s :: s in symbols ==> s in symbols[..|symbols| - 1] || s == symbols[|symbols| - 1];
    }
  }

  /** Sort keys of the eight rankings. */
  function PriceKey(c: Changes): real { c.markPriceChangePct.GetOr(0.0) }
  function BasisKey(c: Changes): real { c.basisPercentChange }
  function FundingKey(c: Changes): real { c.fundingRateChange }
  function OiKey(c: Changes): real { c.oiChangePct }

  /** The eight lists `find_extreme_changes` returns. */
  datatype Extremes = Extremes(
    priceIncrease: seq<Changes>, priceDecrease: seq<Changes>,
    basisIncrease: seq<Changes>, basisDecrease: seq<Changes>,
    fundingIncrease: seq<Changes>, fundingDecrease: seq<Changes>,
    oiIncrease: seq<Changes>, oiDecrease: seq<Changes>)

  /** `sorted(all, key=k, reverse=True)[:n]` and `sorted(all, key=k)[:n]`. */
  function Increase(all: seq<Changes>, key: Changes -> real, n: int): seq<Changes> { PyTake(SortDesc(all, key), n) }
  function Decrease(all: seq<Changes>, key: Changes -> real, n: int): seq<Changes> { PyTake(SortAsc(all, key), n) }

  /** An increase list runs from the largest key down, beats every entry
      it leaves out, is taken from the analyses, is at most `n` long, and
      keeps equal keys in symbol order. */
  lemma IncreaseRanked(all: seq<Changes>, key: Changes -> real, n: int, v: real)
    ensures var up := SortDesc(all, key);
            var top := Increase(all, key, n);
            && NonIncreasing(top, key)
            && (forall i, j :: 0 <= i < |top| <= j < |up| ==> key(top[i]) >= key(up[j]))
            && (forall c :: c in top ==> c in all)
            && (n >= 0 ==> |top| <= n)
            && WithKey(up, key, v) == WithKey(all, key, v)
  {
    SortDescStable(all, key, v);
    var up := SortDesc(all, key);
    var top := Increase(all, key, n);
    assert top == up[..|top|];
    forall i, j | 0 <= i < |top| <= j < |up| ensures key(top[i]) >= key(up[j]) {
      assert top[i] == up[i];
    }
    forall c | c in top ensures c in all {
      assert c in multiset(up);
    }
  }

  /** A decrease list is the mirror image: from the smallest key up. */
  lemma DecreaseRanked(all: seq<Changes>, key: Changes -> real, n: int, v: real)
    ensures var down := SortAsc(all, key);
            var bottom := Decrease(all, key, n);
            && NonDecreasing(bottom, key)
            && (forall i, j :: 0 <= i < |bottom| <= j < |down| ==> key(bottom[i]) <= key(down[j]))
            && (forall c :: c in bottom ==> c in all)
            && (n >= 0 ==> |bottom| <= n)
            && WithKey(down, key, v) == WithKey(all, key, v)
  {
    SortAscStable(all, key, v);
    var down := SortAsc(all, key);
    var bottom := Decrease(all, key, n);
    assert bottom == down[..|bottom|];
    forall i, j | 0 <= i < |bottom| <= j < |down| ensures key(bottom[i]) <= key(down[j]) {
      assert bottom[i] == down[i];
    }
    forall c | c in bottom ensures c in all {
      assert c in multiset(down);
    }
  }

  /** Row `i` of `stored` is at or after the cutoff and no in-window row
      is older: a candidate for the window's first row, whatever order the
      loader's sort leaves equal timestamps in. */
  predicate EarliestInWindow(stored: seq<Row>, cutoff: int, i: int) {
    && 0 <= i < |stored| && stored[i].timestamp >= cutoff
    && forall j :: 0 <= j < |stored| && stored[j].timestamp >= cutoff ==> stored[i].timestamp <= stored[j].timestamp
  }

  /** Every earliest in-window row has a non-zero mark price: the only rows
      the price percentage divides by. */
  predicate EarliestPriced(stored: seq<Row>, cutoff: int) {
    forall i :: 0 <= i < |stored| && EarliestInWindow(stored, cutoff, i) ==> stored[i].markPrice != 0.0
  }

  /** The price percentage of an analysis is defined when every earliest
      in-window stored row has a non-zero mark price, and undefined when
      every one of them has a zero mark price; rows elsewhere in the table
      play no part. */
  lemma PriceKeyDefined(files: map<string, CsvFile>, symbol: string, hours: int, now: int)
    requires AnalyzeChanges(files, symbol, hours, now).Success?
    ensures EarliestPriced(Stored(files, symbol), Cutoff(now, hours)) ==>
              AnalyzeChanges(files, symbol, hours, now).value.markPriceChangePct.Some?
    ensures (forall i :: 0 <= i < |Stored(files, symbol)| && EarliestInWindow(Stored(files, symbol), Cutoff(now, hours), i) ==>
               Stored(files, symbol)[i].markPrice == 0.0) ==>
              AnalyzeChanges(files, symbol, hours, now).value.markPriceChangePct.None?
  {
    var stored := Stored(files, symbol);
    var cutoff := Cutoff(now, hours);
    var df := LoadSymbolData(files, symbol).rows;
    var w := Window(df, cutoff);
    WindowOrderIndependent(df, stored, cutoff);
    WindowEndpoints(stored, df, cutoff);
    WindowCounts(df, cutoff);
    assert AnalyzeChanges(files, symbol, hours, now).value == ChangeBetween(symbol, hours, w);
    assert w[0] in multiset(w);
    assert w[0] in multiset(df);
    assert w[0] in multiset(stored);
    var i :| 0 <= i < |stored| && stored[i] == w[0];
    assert EarliestInWindow(stored, cutoff, i);
  }

  /** In every table whose analysis succeeds, the earliest in-window rows
      have non-zero mark prices; a failing analysis never divides. */
  predicate PricedWindows(files: map<string, CsvFile>, hours: int, now: int) {
    forall s :: s in files && AnalyzeChanges(files, s, hours, now).Success? ==>
      EarliestPriced(Stored(files, s), Cutoff(now, hours))
  }

  /** A new symbol with a single row of mark price 0 (its first mark-price
      request failed) fails its analysis and so does not stand in the way
      of ranking the directory. */
  lemma SingleUnpricedRowAllowed(r: Row, hours: int, now: int)
    requires r.markPrice == 0.0
    ensures AnalyzeChanges(map["NEWUSDT" := CsvFile([Header, Record(r)])], "NEWUSDT", hours, now) == Failure(InsufficientData)
    ensures PricedWindows(map["NEWUSDT" := CsvFile([Header, Record(r)])], hours, now)
  {
    var files := map["NEWUSDT" := CsvFile([Header, Record(r)])];
    assert |Stored(files, "NEWUSDT")| == 1;
  }

  /** Under that condition every listed analysis has a price percentage. */
  lemma AllChangesPriced(files: map<string, CsvFile>, symbols: seq<string>, hours: int, now: int)
    requires PricedWindows(files, hours, now)
    ensures forall c :: c in AllChanges(files, symbols, hours, now) ==> c.markPriceChangePct.Some?
  {
    AllChangesMembers(files, symbols, hours, now);
    forall c | c in AllChanges(files, symbols, hours, now) ensures c.markPriceChangePct.Some? {
      PriceKeyDefined(files, c.symbol, hours, now);
    }
  }

  /** The loop of `find_extreme_changes`: the successful analyses in
      symbol order. */
  method AnalyzeAll(files: map<string, CsvFile>, symbols: seq<string>, hours: int, now: int)
    returns (all: seq<Changes>)
    ensures all == AllChanges(files, symbols, hours, now)
  {
    all := [];
    var i := 0;
    while i < |symbols|
      invariant 0 <= i <= |symbols|
      invariant all == AllChanges(files, symbols[..i], hours, now)
    {
      assert symbols[..i + 1][..i] == symbols[..i];
      var changes := AnalyzeChanges(files, symbols[i], hours, now);
      if changes.Success? {
        all := all + [changes.value];
      }
      i := i + 1;
    }
    assert symbols[..i] == symbols;
  }

  /** `find_extreme_changes(hours, top_n)`: analyse every listed symbol in
      name order, keep the successes, and rank them eight ways. The price
      rankings divide by each window's oldest mark price, hence the
      requirement that it is non-zero. */
  method FindExtremeChanges(files: map<string, CsvFile>, listing: seq<string>, hours: int, now: int, topN: int)
    returns (all: seq<Changes>, results: Extremes)
    requires PricedWindows(files, hours, now)
    ensures all == AllChanges(files, GetAvailableSymbols(listing), hours, now)
    ensures forall c :: c in all ==> c.markPriceChangePct.Some?
    ensures results == Extremes(
              Increase(all, PriceKey, topN), Decrease(all, PriceKey, topN),
              Increase(all, BasisKey, topN), Decrease(all, BasisKey, topN),
              Increase(all, FundingKey, topN), Decrease(all, FundingKey, topN),
              Increase(all, OiKey, topN), Decrease(all, OiKey, topN))
  {
    var symbols := GetAvailableSymbols(listing);
    all := AnalyzeAll(files, symbols, hours, now);
    AllChangesPriced(files, symbols, hours, now);
    results := Extremes(
      Increase(all, PriceKey, topN), Decrease(all, PriceKey, topN),
      Increase(all, BasisKey, topN), Decrease(all, BasisKey, topN),
      Increase(all, FundingKey, topN), Decrease(all, FundingKey, topN),
      Increase(all, OiKey, topN), Decrease(all, OiKey, topN));
  }
}
