/** One recorded market snapshot (a row of a per-symbol CSV table) and the
    operations on series of rows shared by the monitors and the analyzer:
    ordering by timestamp, sums and means. */
module Rows {

  /** The twelve columns of a per-symbol table, in file order. Timestamps are
      whole seconds; prices and ratios are exact reals. */
  datatype Row = Row(
    timestamp: int,
    markPrice: real,
    indexPrice: real,
    basis: real,
    basisPercent: real,
    lastFundingRate: real,
    nextFundingTime: int,
    oi: real,
    longShortAccountRatio: real,
    topTraderAccountRatio: real,
    topTraderPositionRatio: real,
    takerBuySellRatio: real)

  ghost predicate SortedByTime(s: seq<Row>) {
    forall i, j :: 0 <= i < j < |s| ==> s[i].timestamp <= s[j].timestamp
  }

  /** Insert one row into a series already ordered by timestamp. */
  function InsertByTime(r: Row, s: seq<Row>): (t: seq<Row>)
    requires SortedByTime(s)
    ensures SortedByTime(t)
    ensures multiset(t) == multiset(s) + multiset{r}
    ensures |t| == |s| + 1
    ensures t[0] == r || (s != [] && t[0] == s[0])
  {
    if s == [] || r.timestamp <= s[0].timestamp then
      ConsSortedByTime(r, s);
      [r] + s
    else
      var rest := InsertByTime(r, s[1..]);
      assert s == [s[0]] + s[1..];
      assert s[0].timestamp <= rest[0].timestamp;
      ConsSortedByTime(s[0], rest);
      assert multiset([s[0]] + rest) == multiset{s[0]} + multiset(rest);
      [s[0]] + rest
  }

  /** A row no later than the head of a sorted series can go in front. */
  lemma ConsSortedByTime(r: Row, s: seq<Row>)
    requires SortedByTime(s)
    requires s != [] ==> r.timestamp <= s[0].timestamp
    ensures SortedByTime([r] + s)
  {
    var t := [r] + s;
    forall i, j | 0 <= i < j < |t| ensures t[i].timestamp <= t[j].timestamp {
      if i == 0 && j > 1 {
        assert s[0].timestamp <= s[j - 1].timestamp;
      }
    }
  }

  /** A sort of a series by timestamp (pandas `sort_values('timestamp')`):
      ascending and a permutation of its input. The order of rows with equal
      timestamps is not part of the contract. */
  function SortByTime(s: seq<Row>): (t: seq<Row>)
    ensures SortedByTime(t)
    ensures multiset(t) == multiset(s)
    ensures |t| == |s|
  {
    if s == [] then []
    else
      assert s == [s[0]] + s[1..];
      InsertByTime(s[0], SortByTime(s[1..]))
  }

  function Sum(xs: seq<real>): real {
    if xs == [] then 0.0 else Sum(xs[..|xs| - 1]) + xs[|xs| - 1]
  }

  /** Arithmetic mean, as pandas `Series.mean()` on a non-empty column. */
  function Mean(xs: seq<real>): real
    requires |xs| > 0
  {
    Sum(xs) / (|xs| as real)
  }

  /** The `oi` column of a series. */
  function OiColumn(s: seq<Row>): (c: seq<real>)
    ensures |c| == |s|
    ensures forall i :: 0 <= i < |s| ==> c[i] == s[i].oi
  {
    seq(|s|, i requires 0 <= i < |s| => s[i].oi)
  }

  lemma {:induction false} SumAppend(a: seq<real>, b: seq<real>)
    ensures Sum(a + b) == Sum(a) + Sum(b)
    decreases |b|
  {
    if b == [] {
      assert a + b == a;
    } else {
      assert (a + b)[..|a + b| - 1] == a + b[..|b| - 1];
      SumAppend(a, b[..|b| - 1]);
    }
  }

  lemma {:induction false} SumConstant(xs: seq<real>, c: real)
    requires forall i :: 0 <= i < |xs| ==> xs[i] == c
    ensures Sum(xs) == (|xs| as real) * c
  {
    if xs != [] {
      SumConstant(xs[..|xs| - 1], c);
    }
  }

  lemma {:induction false} SumNonNegative(xs: seq<real>)
    requires forall i :: 0 <= i < |xs| ==> xs[i] >= 0.0
    ensures Sum(xs) >= 0.0
  {
    if xs != [] {
      SumNonNegative(xs[..|xs| - 1]);
    }
  }

  lemma {:induction false} SumPositive(xs: seq<real>)
    requires |xs| > 0
    requires forall i :: 0 <= i < |xs| ==> xs[i] > 0.0
    ensures Sum(xs) > 0.0
  {
    if |xs| > 1 {
      SumPositive(xs[..|xs| - 1]);
    }
  }
}
