/** The per-symbol CSV tables the collectors append to and the monitors,
    the analyzer and the retention pass read. A file is its sequence of lines:
    the header line, data records, or a line a CSV reader cannot parse (a
    file corrupted outside the program). The data directory is a map from
    symbol to file (`<symbol>.csv`). */
module Storage {
  import opened Wrappers
  import opened Rows

  datatype Line = Header | Record(row: Row) | Garbage

  datatype CsvFile = CsvFile(lines: seq<Line>)

  /** The rows of a sequence of lines, when every line is a data record. */
  function Records(lines: seq<Line>): (r: Option<seq<Row>>)
    ensures r.Some? <==> forall i :: 0 <= i < |lines| ==> lines[i].Record?
    ensures r.Some? ==> |r.value| == |lines| && forall i :: 0 <= i < |lines| ==> lines[i] == Record(r.value[i])
  {
    if lines == [] then Some([])
    else
      var init := Records(lines[..|lines| - 1]);
      var last := lines[|lines| - 1];
      if init.Some? && last.Record? then Some(init.value + [last.row])
      else
        assert forall i :: 0 <= i < |lines| - 1 ==> lines[..|lines| - 1][i] == lines[i];
        None
  }

  /** `pd.read_csv`: succeeds exactly on a header line followed by data
      records (an empty file is an error, a header alone an empty table). */
  function ReadCsv(f: CsvFile): (r: Option<seq<Row>>)
    ensures r.Some? <==> |f.lines| >= 1 && f.lines[0] == Header && forall i :: 1 <= i < |f.lines| ==> f.lines[i].Record?
    ensures r.Some? ==> |r.value| == |f.lines| - 1 && forall i :: 0 <= i < |r.value| ==> f.lines[i + 1] == Record(r.value[i])
  {
    if |f.lines| >= 1 && f.lines[0] == Header then
      var r := Records(f.lines[1..]);
      assert forall i :: 1 <= i < |f.lines| ==> f.lines[i] == f.lines[1..][i - 1];
      r
    else None
  }

  /** `DataFrame.to_csv(index=False)`: a header line and one record per row. */
  function WriteCsv(rows: seq<Row>): (f: CsvFile)
    ensures ReadCsv(f) == Some(rows)
  {
    var f := CsvFile([Header] + seq(|rows|, i requires 0 <= i < |rows| => Record(rows[i])));
    assert ReadCsv(f).value == rows;
    f
  }

  /** One `save_to_csv` on the file as it was (`None`: it did not exist):
      the header is written only when the file is created, then one record. */
  function AppendRow(f: Option<CsvFile>, row: Row): CsvFile {
    match f
    case None => CsvFile([Header, Record(row)])
    case Some(file) => CsvFile(file.lines + [Record(row)])
  }

  function HeaderCount(lines: seq<Line>): nat {
    if lines == [] then 0
    else HeaderCount(lines[..|lines| - 1]) + (if lines[|lines| - 1] == Header then 1 else 0)
  }

  /** An append writes a header exactly when the file did not exist. */
  lemma AppendWritesHeaderOnce(f: Option<CsvFile>, row: Row)
    ensures HeaderCount(AppendRow(f, row).lines) == if f.None? then 1 else HeaderCount(f.value.lines)
  {
    var lines := AppendRow(f, row).lines;
    if f.None? {
      assert lines[..1] == [Header];
      assert [Header][..0] == [];
    } else {
      assert lines[..|lines| - 1] == f.value.lines;
    }
  }

  /** A read after an append sees every earlier row unchanged and the new
      row last; a new file reads back as that one row. An unreadable file
      stays unreadable. */
  lemma AppendThenRead(f: Option<CsvFile>, row: Row)
    ensures ReadCsv(AppendRow(f, row)) ==
            match f
            case None => Some([row])
            case Some(file) =>
              match ReadCsv(file)
              case None => None
              case Some(rows) => Some(rows + [row])
  {
    var g := AppendRow(f, row);
    if f.Some? && ReadCsv(f.value).Some? {
      var rows := ReadCsv(f.value).value;
      assert ReadCsv(g).value == rows + [row];
    } else if f.Some? {
      var lines := f.value.lines;
      if |lines| >= 1 && lines[0] == Header {
        var i :| 1 <= i < |lines| && !lines[i].Record?;
        assert g.lines[i] == lines[i];
      }
    } else {
      assert ReadCsv(g).value == [row];
    }
  }

  /** The outcome of loading one symbol's table. */
  datatype LoadResult = NotFound | Unreadable | Loaded(rows: seq<Row>)

  /** `load_symbol_data`: no file, a file the reader rejects, or the stored
      rows sorted by timestamp. */
  function LoadSymbolData(files: map<string, CsvFile>, symbol: string): (r: LoadResult)
    ensures r.NotFound? <==> symbol !in files
    ensures r.Unreadable? <==> symbol in files && ReadCsv(files[symbol]).None?
    ensures r.Loaded? ==> && symbol in files && ReadCsv(files[symbol]).Some?
                          && SortedByTime(r.rows)
                          && multiset(r.rows) == multiset(ReadCsv(files[symbol]).value)
  {
    if symbol !in files then NotFound
    else match ReadCsv(files[symbol])
      case None => Unreadable
      case Some(rows) => Loaded(SortByTime(rows))
  }

  /** The monitors' variant: `None` for a missing or unreadable file. */
  function LoadOrNone(files: map<string, CsvFile>, symbol: string): (r: Option<seq<Row>>)
    ensures r.Some? <==> LoadSymbolData(files, symbol).Loaded?
    ensures r.Some? ==> r.value == LoadSymbolData(files, symbol).rows
  {
    match LoadSymbolData(files, symbol)
    case Loaded(rows) => Some(rows)
    case _ => None
  }

  /** The data directory a collector writes to. */
  class CsvStore {
    var files: map<string, CsvFile>

    constructor (initial: map<string, CsvFile>)
      ensures files == initial
    {
      files := initial;
    }

    /** `save_to_csv(symbol, data)`: appends to `<symbol>.csv` only. */
    method SaveToCsv(symbol: string, row: Row)
      modifies this
      ensures files == old(files)[symbol := AppendRow(Lookup(old(files), symbol), row)]
      ensures forall other :: other != symbol ==> Lookup(files, other) == Lookup(old(files), other)
    {
      files := files[symbol := AppendRow(Lookup(files, symbol), row)];
    }

    /** `df.to_csv(path, index=False)`: replaces the symbol's table with a
        fresh header and `rows`. */
    method WriteTable(symbol: string, rows: seq<Row>)
      modifies this
      ensures files == old(files)[symbol := WriteCsv(rows)]
      ensures ReadCsv(files[symbol]) == Some(rows)
    {
      files := files[symbol := WriteCsv(rows)];
    }
  }
}
