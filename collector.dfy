/** The collection loop: for each symbol, fetch a snapshot and append it to
    the symbol's table, counting successes and errors. A failing symbol is
    counted and skipped; the batch goes on. The exchange is the parameter
    `fetch`: the responses for a symbol, or `None` when fetching, parsing or
    writing raised for it. A failed HTTP request does not raise: it yields
    empty responses, and a row of zeros is stored and counted as a success. */
module Collector {
  import opened Wrappers
  import opened Rows
  import opened Storage
  import opened Snapshot
  import opened Symbols

  /** The rows a batch writes, one per symbol that did not fail. */
  function SnapshotRows(fetch: string -> Option<Responses>, now: int): string -> Option<Row> {
    (s: string) => if fetch(s).Some? then Some(GetDataSnapshot(now, fetch(s).value)) else None
  }

  /** The all-in-one collector's rows. */
  function AutoSnapshotRows(fetch: string -> Option<Responses>, now: int): string -> Option<Row> {
    (s: string) => if fetch(s).Some? then Some(GetAutoSnapshot(now, fetch(s).value)) else None
  }

  /** The directory after the batch has handled `symbols` in order. */
  function AppendAll(files: map<string, CsvFile>, symbols: seq<string>, rows: string -> Option<Row>): map<string, CsvFile> {
    if symbols == [] then files
    else
      var before := AppendAll(files, symbols[..|symbols| - 1], rows);
      var symbol := symbols[|symbols| - 1];
      if rows(symbol).Some? then before[symbol := AppendRow(Lookup(before, symbol), rows(symbol).value)]
      else before
  }

  /** The number of symbols that did not fail. */
  function Successes(symbols: seq<string>, rows: string -> Option<Row>): (n: nat)
    ensures n <= |symbols|
  {
    if symbols == [] then 0
    else Successes(symbols[..|symbols| - 1], rows) + (if rows(symbols[|symbols| - 1]).Some? then 1 else 0)
  }

  /** The rows the batch appends to one symbol's table, in batch order. */
  function RowsFor(symbols: seq<string>, rows: string -> Option<Row>, symbol: string): seq<Row> {
    if symbols == [] then []
    else
      var last := symbols[|symbols| - 1];
      RowsFor(symbols[..|symbols| - 1], rows, symbol) + (if last == symbol && rows(last).Some? then [rows(last).value] else [])
  }

  /** A table as read back, an absent file reading as no rows. */
  function TableOrEmpty(files: map<string, CsvFile>, symbol: string): Option<seq<Row>> {
    if symbol in files then ReadCsv(files[symbol]) else Some([])
  }

  /** A symbol outside the batch keeps its file (or its absence). */
  lemma {:induction false} AppendAllLeavesOthers(files: map<string, CsvFile>, symbols: seq<string>, rows: string -> Option<Row>, other: string)
    requires other !in symbols
    ensures Lookup(AppendAll(files, symbols, rows), other) == Lookup(files, other)
  {
    if symbols != [] {
      AppendAllLeavesOthers(files, symbols[..|symbols| - 1], rows, other);
    }
  }

  /** A readable table ends up holding its earlier rows unchanged followed by
      exactly the batch's rows for that symbol; its file exists afterwards
      exactly when it existed before or received a row. */
  lemma {:induction false} AppendAllRows(files: map<string, CsvFile>, symbols: seq<string>, rows: string -> Option<Row>, symbol: string)
    requires TableOrEmpty(files, symbol).Some?
    ensures var after := AppendAll(files, symbols, rows);
            && TableOrEmpty(after, symbol) == Some(TableOrEmpty(files, symbol).value + RowsFor(symbols, rows, symbol))
            && (symbol in after <==> symbol in files || RowsFor(symbols, rows, symbol) != [])
  {
    if symbols != [] {
      var init := symbols[..|symbols| - 1];
      var last := symbols[|symbols| - 1];
      AppendAllRows(files, init, rows, symbol);
      var before := AppendAll(files, init, rows);
      var after := AppendAll(files, symbols, rows);
      assert symbols[..|symbols| - 1] == init;
      if last == symbol && rows(last).Some? {
        AppendThenRead(Lookup(before, symbol), rows(last).value);
        assert after[symbol] == AppendRow(Lookup(before, symbol), rows(last).value);
        assert RowsFor(symbols, rows, symbol) == RowsFor(init, rows, symbol) + [rows(last).value];
        assert TableOrEmpty(after, symbol) == Some(TableOrEmpty(before, symbol).value + [rows(last).value]);
        assert TableOrEmpty(files, symbol).value + RowsFor(symbols, rows, symbol)
            == (TableOrEmpty(files, symbol).value + RowsFor(init, rows, symbol)) + [rows(last).value];
      } else {
        assert RowsFor(symbols, rows, symbol) == RowsFor(init, rows, symbol);
        if rows(last).Some? {
          assert after == before[last := AppendRow(Lookup(before, last), rows(last).value)];
        }
        assert symbol in after <==> symbol in before;
        assert symbol in after ==> after[symbol] == before[symbol];
      }
    } else {
      assert TableOrEmpty(files, symbol).value + [] == TableOrEmpty(files, symbol).value;
    }
  }

  /** The symbols `get_all_usdt_perpetual_symbols` falls back on when the
      exchange-information request fails. */
  const FallbackSymbols: seq<string> := ["BTCUSDT", "ETHUSDT", "BNBUSDT", "ADAUSDT", "SOLUSDT",
                                         "XRPUSDT", "DOTUSDT", "DOGEUSDT", "AVAXUSDT", "MATICUSDT"]

  /** `get_all_usdt_perpetual_symbols()` of the all-in-one collector: the
      same filter as the directory helper, but a fixed list of ten majors on
      a failed request instead of the empty list. */
  method GetAllUsdtPerpetualSymbols(response: Option<seq<SymbolInfo>>) returns (symbols: seq<string>)
    ensures response.None? ==> symbols == FallbackSymbols
    ensures response.Some? ==> StringsSorted(symbols) && multiset(symbols) == multiset(Qualifying(response.value))
  {
    if response.None? {
      return FallbackSymbols;
    }
    symbols := GetUsdtPerpetualSymbols(response);
  }

  /** The symbols a collection run visits, in order: the qualifying
      symbols sorted, or the ten fallback symbols when the listing request
      fails. */
  function CollectedSymbols(exchange: Option<seq<SymbolInfo>>): seq<string> {
    if exchange.None? then FallbackSymbols else SortStrings(Qualifying(exchange.value))
  }

  /** The listing step's contract pins its result down completely. */
  lemma CollectedSymbolsExact(exchange: Option<seq<SymbolInfo>>, symbols: seq<string>)
    requires exchange.None? ==> symbols == FallbackSymbols
    requires exchange.Some? ==> StringsSorted(symbols) && multiset(symbols) == multiset(Qualifying(exchange.value))
    ensures symbols == CollectedSymbols(exchange)
  {
    if exchange.Some? {
      SortedUnique(symbols, SortStrings(Qualifying(exchange.value)));
    }
  }

  class DataCollector {
    const store: CsvStore

    constructor (store: CsvStore)
      ensures this.store == store
    {
      this.store := store;
    }

    /** The shared loop of `collect_data_for_symbols` and `collect_data`. */
    method AppendBatch(symbols: seq<string>, rows: string -> Option<Row>) returns (successCount: nat, errorCount: nat)
      modifies store
      ensures successCount + errorCount == |symbols|
      ensures successCount == Successes(symbols, rows)
      ensures store.files == AppendAll(old(store.files), symbols, rows)
    {
      successCount, errorCount := 0, 0;
      var i := 0;
      while i < |symbols|
        invariant 0 <= i <= |symbols|
        invariant successCount + errorCount == i
        invariant successCount == Successes(symbols[..i], rows)
        invariant store.files == AppendAll(old(store.files), symbols[..i], rows)
      {
        assert symbols[..i + 1][..i] == symbols[..i];
        var symbol := symbols[i];
        var row := rows(symbol);
        if row.Some? {
          store.SaveToCsv(symbol, row.value);
          successCount := successCount + 1;
        } else {
          errorCount := errorCount + 1;
        }
        i := i + 1;
      }
      assert symbols[..i] == symbols;
    }

    /** `collect_data_for_symbols(symbols)`: returns (successes, errors). */
    method CollectDataForSymbols(symbols: seq<string>, fetch: string -> Option<Responses>, now: int)
      returns (successCount: nat, errorCount: nat)
      modifies store
      ensures successCount + errorCount == |symbols|
      ensures successCount == Successes(symbols, SnapshotRows(fetch, now))
      ensures store.files == AppendAll(old(store.files), symbols, SnapshotRows(fetch, now))
    {
      successCount, errorCount := AppendBatch(symbols, SnapshotRows(fetch, now));
    }

    /** `collect_data()` of the all-in-one collector: the directory listing,
      then the same loop with its eight-column snapshot. */
    method CollectData(exchange: Option<seq<SymbolInfo>>, fetch: string -> Option<Responses>, now: int)
      returns (symbols: seq<string>, successCount: nat, errorCount: nat)
      modifies store
      ensures symbols == CollectedSymbols(exchange)
      ensures successCount + errorCount == |symbols|
      ensures successCount == Successes(symbols, AutoSnapshotRows(fetch, now))
      ensures store.files == AppendAll(old(store.files), symbols, AutoSnapshotRows(fetch, now))
    {
      symbols := GetAllUsdtPerpetualSymbols(exchange);
      CollectedSymbolsExact(exchange, symbols);
      successCount, errorCount := AppendBatch(symbols, AutoSnapshotRows(fetch, now));
    }
  }
}
