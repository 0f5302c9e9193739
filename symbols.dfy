/** The exchange-directory filters: all USDT-margined perpetual contracts that
    are trading, sorted by name, and the USDT tickers ranked by 24-hour quote
    volume. The HTTP request is not modelled; its decoded payload is a
    parameter and `None` stands for a failed request. */
module Symbols {
  import opened Wrappers
  import opened StableSort

  /** One entry of the exchange-information `symbols` array. */
  datatype SymbolInfo = SymbolInfo(symbol: string, quoteAsset: string, contractType: string, status: string)

  /** One entry of the 24-hour ticker array, with `quoteVolume` parsed. */
  datatype Ticker = Ticker(symbol: string, quoteVolume: real)

  /** The intermediate `{"symbol", "volume"}` record that is sorted. */
  datatype VolumeEntry = VolumeEntry(symbol: string, volume: real)

  predicate IsUsdtPerpetualTrading(info: SymbolInfo) {
    info.quoteAsset == "USDT" && info.contractType == "PERPETUAL" && info.status == "TRADING"
  }

  /** Python's `str.endswith("USDT")`. */
  predicate EndsWithUsdt(s: string) {
    |s| >= 4 && s[|s| - 4..] == "USDT"
  }

  // ---------------------------------------------------------------------
  // Python's ordering of strings: lexicographic by code point, a proper
  // prefix first.

  predicate StrLessEq(a: string, b: string) {
    if a == [] then true
    else if b == [] then false
    else if a[0] != b[0] then a[0] < b[0]
    else StrLessEq(a[1..], b[1..])
  }

  lemma {:induction false} StrLessEqTotal(a: string, b: string)
    ensures StrLessEq(a, b) || StrLessEq(b, a)
  {
    if a != [] && b != [] && a[0] == b[0] {
      StrLessEqTotal(a[1..], b[1..]);
    }
  }

  lemma {:induction false} StrLessEqTransitive(a: string, b: string, c: string)
    requires StrLessEq(a, b) && StrLessEq(b, c)
    ensures StrLessEq(a, c)
  {
    if a != [] && b != [] && c != [] && a[0] == b[0] && b[0] == c[0] {
      StrLessEqTransitive(a[1..], b[1..], c[1..]);
    }
  }

  lemma {:induction false} StrLessEqAntisymmetric(a: string, b: string)
    requires StrLessEq(a, b) && StrLessEq(b, a)
    ensures a == b
  {
    if a != [] && b != [] {
      StrLessEqAntisymmetric(a[1..], b[1..]);
      assert a == [a[0]] + a[1..] && b == [b[0]] + b[1..];
    }
  }

  ghost predicate StringsSorted(s: seq<string>) {
    forall i, j :: 0 <= i < j < |s| ==> StrLessEq(s[i], s[j])
  }

  function InsertString(x: string, s: seq<string>): (t: seq<string>)
    requires StringsSorted(s)
    ensures StringsSorted(t)
    ensures multiset(t) == multiset(s) + multiset{x}
    ensures |t| == |s| + 1
    ensures t[0] == x || (s != [] && t[0] == s[0])
  {
    if s == [] || StrLessEq(x, s[0]) then
      var t := [x] + s;
      forall i, j | 0 <= i < j < |t| ensures StrLessEq(t[i], t[j]) {
        if i == 0 && j > 1 { StrLessEqTransitive(x, s[0], s[j - 1]); }
      }
      t
    else
      StrLessEqTotal(x, s[0]);
      var rest := InsertString(x, s[1..]);
      assert s == [s[0]] + s[1..];
      assert StrLessEq(s[0], rest[0]);
      var t := [s[0]] + rest;
      forall i, j | 0 <= i < j < |t| ensures StrLessEq(t[i], t[j]) {
        if i == 0 && j > 1 { StrLessEqTransitive(s[0], rest[0], rest[j - 1]); }
      }
      t
  }

  /** Python's `sorted(...)` on a list of strings: ascending and a
      permutation of its input. */
  function SortStrings(s: seq<string>): (t: seq<string>)
    ensures StringsSorted(t)
    ensures multiset(t) == multiset(s)
    ensures |t| == |s|
  {
    if s == [] then []
    else
      assert s == [s[0]] + s[1..];
      InsertString(s[0], SortStrings(s[1..]))
  }

  lemma SortedSameHead(a: seq<string>, b: seq<string>)
    requires StringsSorted(a) && StringsSorted(b)
    requires multiset(a) == multiset(b)
    requires a != [] && b != []
    ensures a[0] == b[0]
  {
    assert a[0] in multiset(b);
    var i :| 0 <= i < |b| && b[i] == a[0];
    assert b[0] in multiset(a);
    var j :| 0 <= j < |a| && a[j] == b[0];
    if a[0] != b[0] {
      assert StrLessEq(b[0], b[i]);
      assert StrLessEq(a[0], a[j]);
      StrLessEqAntisymmetric(a[0], b[0]);
    }
  }

  lemma SameTail(a: seq<string>, b: seq<string>)
    requires a != [] && b != [] && a[0] == b[0]
    requires multiset(a) == multiset(b)
    ensures multiset(a[1..]) == multiset(b[1..])
  {
    assert a == [a[0]] + a[1..];
    assert b == [b[0]] + b[1..];
    var h := multiset{a[0]};
    assert multiset(a) == h + multiset(a[1..]);
    assert multiset(b) == h + multiset(b[1..]);
    assert multiset(a[1..]) == (h + multiset(a[1..])) - h;
    assert multiset(b[1..]) == (h + multiset(b[1..])) - h;
  }

  /** Two sorted lists with the same elements are the same list, so the
      result of `sorted` does not depend on the order of its input. */
  lemma {:induction false} SortedUnique(a: seq<string>, b: seq<string>)
    requires StringsSorted(a) && StringsSorted(b)
    requires multiset(a) == multiset(b)
    ensures a == b
    decreases |a|
  {
    assert |a| == |multiset(a)| == |multiset(b)| == |b|;
    if a != [] {
      SortedSameHead(a, b);
      SameTail(a, b);
      SortedUnique(a[1..], b[1..]);
      assert a == [a[0]] + a[1..];
      assert b == [b[0]] + b[1..];
    }
  }

  lemma SortStringsOrderIndependent(a: seq<string>, b: seq<string>)
    requires multiset(a) == multiset(b)
    ensures SortStrings(a) == SortStrings(b)
  {
    SortedUnique(SortStrings(a), SortStrings(b));
  }

  // ---------------------------------------------------------------------
  // get_usdt_perpetual_symbols

  /** The names appended by the filter loop over `infos`, in input order. */
  function Qualifying(infos: seq<SymbolInfo>): seq<string> {
    if infos == [] then []
    else
      var init := Qualifying(infos[..|infos| - 1]);
      var last := infos[|infos| - 1];
      if IsUsdtPerpetualTrading(last) then init + [last.symbol] else init
  }

  /** A name is kept exactly when some record with that name passes all three
      conditions. */
  lemma {:induction false} QualifyingMembers(infos: seq<SymbolInfo>, name: string)
    ensures name in Qualifying(infos) <==>
            exists i :: 0 <= i < |infos| && IsUsdtPerpetualTrading(infos[i]) && infos[i].symbol == name
  {
    if infos != [] {
      var init := infos[..|infos| - 1];
      QualifyingMembers(init, name);
      if exists i :: 0 <= i < |infos| && IsUsdtPerpetualTrading(infos[i]) && infos[i].symbol == name {
        var i :| 0 <= i < |infos| && IsUsdtPerpetualTrading(infos[i]) && infos[i].symbol == name;
        if i < |infos| - 1 { assert init[i] == infos[i]; }
      }
      if exists i :: 0 <= i < |init| && IsUsdtPerpetualTrading(init[i]) && init[i].symbol == name {
        var i :| 0 <= i < |init| && IsUsdtPerpetualTrading(init[i]) && init[i].symbol == name;
        assert infos[i] == init[i];
      }
    }
  }

  /** `get_usdt_perpetual_symbols()`: on a failed request the empty list,
      otherwise the qualifying names, sorted. */
  method GetUsdtPerpetualSymbols(response: Option<seq<SymbolInfo>>) returns (symbols: seq<string>)
    ensures response.None? ==> symbols == []
    ensures StringsSorted(symbols)
    ensures response.Some? ==> multiset(symbols) == multiset(Qualifying(response.value))
  {
    if response.None? {
      return [];
    }
    var infos := response.value;
    var usdtSymbols: seq<string> := [];
    var i := 0;
    while i < |infos|
      invariant 0 <= i <= |infos|
      invariant usdtSymbols == Qualifying(infos[..i])
    {
      assert infos[..i + 1][..i] == infos[..i];
      if IsUsdtPerpetualTrading(infos[i]) {
        usdtSymbols := usdtSymbols + [infos[i].symbol];
      }
      i := i + 1;
    }
    assert infos[..i] == infos;
    symbols := SortStrings(usdtSymbols);
  }

  /** The filter keeps exactly the qualifying records' names: every returned
      name qualifies and every qualifying name is returned. */
  lemma UsdtPerpetualSymbolsExact(infos: seq<SymbolInfo>, symbols: seq<string>, name: string)
    requires multiset(symbols) == multiset(Qualifying(infos))
    ensures name in symbols <==>
            exists i :: 0 <= i < |infos| && IsUsdtPerpetualTrading(infos[i]) && infos[i].symbol == name
  {
    QualifyingMembers(infos, name);
    assert name in symbols <==> name in multiset(symbols);
    assert name in Qualifying(infos) <==> name in multiset(Qualifying(infos));
  }

  // ---------------------------------------------------------------------
  // get_top_symbols_by_volume

  /** The `{"symbol", "volume"}` records appended for the USDT tickers, in
      ticker order. */
  function UsdtVolumes(tickers: seq<Ticker>): (r: seq<VolumeEntry>)
    ensures forall e :: e in r ==> EndsWithUsdt(e.symbol)
  {
    if tickers == [] then []
    else
      var init := UsdtVolumes(tickers[..|tickers| - 1]);
      var last := tickers[|tickers| - 1];
      if EndsWithUsdt(last.symbol) then init + [VolumeEntry(last.symbol, last.quoteVolume)] else init
  }

  function Volume(e: VolumeEntry): real { e.volume }

  /** The ranked records kept by `usdt_symbols[:limit]` after the stable
      descending sort on volume. */
  function TopByVolume(tickers: seq<Ticker>, limit: int): seq<VolumeEntry> {
    PyTake(SortDesc(UsdtVolumes(tickers), Volume), limit)
  }

  function Names(entries: seq<VolumeEntry>): (r: seq<string>)
    ensures |r| == |entries|
    ensures forall i :: 0 <= i < |r| ==> r[i] == entries[i].symbol
  {
    seq(|entries|, i requires 0 <= i < |entries| => entries[i].symbol)
  }

  /** `get_top_symbols_by_volume(limit)`: on a failed request the empty
      list, otherwise the names of the top-ranked USDT tickers. */
  method GetTopSymbolsByVolume(response: Option<seq<Ticker>>, limit: int) returns (symbols: seq<string>)
    ensures response.None? ==> symbols == []
    ensures response.Some? ==> symbols == Names(TopByVolume(response.value, limit))
    ensures limit >= 0 ==> |symbols| <= limit
    ensures forall s :: s in symbols ==> EndsWithUsdt(s)
  {
    if response.None? {
      return [];
    }
    var tickers := response.value;
    var usdtSymbols: seq<VolumeEntry> := [];
    var i := 0;
    while i < |tickers|
      invariant 0 <= i <= |tickers|
      invariant usdtSymbols == UsdtVolumes(tickers[..i])
    {
      assert tickers[..i + 1][..i] == tickers[..i];
      if EndsWithUsdt(tickers[i].symbol) {
        usdtSymbols := usdtSymbols + [VolumeEntry(tickers[i].symbol, tickers[i].quoteVolume)];
      }
      i := i + 1;
    }
    assert tickers[..i] == tickers;
    TopByVolumeUsdt(tickers, limit);
    symbols := Names(PyTake(SortDesc(usdtSymbols, Volume), limit));
  }

  /** Every ranked record comes from a USDT ticker. */
  lemma TopByVolumeUsdt(tickers: seq<Ticker>, limit: int)
    ensures forall e :: e in TopByVolume(tickers, limit) ==> EndsWithUsdt(e.symbol)
  {
    var usdt := UsdtVolumes(tickers);
    var ranked := SortDesc(usdt, Volume);
    forall e | e in TopByVolume(tickers, limit) ensures EndsWithUsdt(e.symbol) {
      assert e in ranked;
      assert e in multiset(ranked);
      assert e in usdt;
    }
  }

  /** The ranking: volumes never increase down the list, the kept entries
      have volumes at least those of every dropped USDT ticker, and tickers
      with equal volume keep their ticker order. */
  lemma TopByVolumeRanked(tickers: seq<Ticker>, limit: int, v: real)
    ensures var ranked := SortDesc(UsdtVolumes(tickers), Volume);
            var top := TopByVolume(tickers, limit);
            && NonIncreasing(top, Volume)
            && (forall i, j :: 0 <= i < |top| <= j < |ranked| ==> top[i].volume >= ranked[j].volume)
            && WithKey(ranked, Volume, v) == WithKey(UsdtVolumes(tickers), Volume, v)
  {
    SortDescStable(UsdtVolumes(tickers), Volume, v);
  }
}
