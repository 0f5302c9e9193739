/** Data retention of the all-in-one system: once the data directory grows
    past a size threshold, every table longer than 1000 rows is rewritten
    with only its latest 1000 rows. This module is the specification of that
    pass; the loop itself is `AutoSystem.AutoMonitorSystem.CleanupOldData`. */
module Retention {
  import opened Wrappers
  import opened Rows
  import opened Storage

  /** Rows a table keeps. */
  const MaxRows: nat := 1000

  /** The data-directory size (bytes) at which the pass runs: 800 MiB. */
  const SizeThreshold: nat := 800 * 1024 * 1024

  /** `df.tail(1000)`. */
  function KeepLast(rows: seq<Row>): (kept: seq<Row>)
    ensures |kept| == if |rows| <= MaxRows then |rows| else MaxRows
    ensures kept == rows[|rows| - |kept|..]
  {
    if |rows| <= MaxRows then rows else rows[|rows| - MaxRows..]
  }

  /** What the pass does to one file: an unreadable or short table is left
      as it is, a long one is rewritten with its last rows in file order. */
  function CleanFile(f: CsvFile): CsvFile {
    match ReadCsv(f)
    case None => f
    case Some(rows) => if |rows| <= MaxRows then f else WriteCsv(KeepLast(rows))
  }

  /** The counters the pass reports. */
  datatype Tally = Tally(filesProcessed: nat, filesCleaned: nat, totalRowsRemoved: nat)

  datatype CleanupState = CleanupState(files: map<string, CsvFile>, tally: Tally)

  /** One iteration of the pass. A listed file that has disappeared or that
      the reader rejects raises; the pass skips it without counting it. */
  function CleanupStep(st: CleanupState, name: string): CleanupState {
    if name !in st.files then st
    else match ReadCsv(st.files[name])
      case None => st
      case Some(rows) =>
        var t := st.tally;
        if |rows| <= MaxRows then CleanupState(st.files, t.(filesProcessed := t.filesProcessed + 1))
        else
          CleanupState(st.files[name := WriteCsv(KeepLast(rows))],
                       Tally(t.filesProcessed + 1, t.filesCleaned + 1, t.totalRowsRemoved + (|rows| - MaxRows)))
  }

  /** The state after the pass has visited `names` in order. */
  function Cleanup(files: map<string, CsvFile>, names: seq<string>): CleanupState {
    if names == [] then CleanupState(files, Tally(0, 0, 0))
    else CleanupStep(Cleanup(files, names[..|names| - 1]), names[|names| - 1])
  }

  /** Cleaning a file twice is cleaning it once. */
  lemma CleanFileIdempotent(f: CsvFile)
    ensures CleanFile(CleanFile(f)) == CleanFile(f)
    ensures ReadCsv(CleanFile(f)).Some? <==> ReadCsv(f).Some?
    ensures ReadCsv(f).Some? ==> ReadCsv(CleanFile(f)) == Some(KeepLast(ReadCsv(f).value))
  {
    if ReadCsv(f).Some? && |ReadCsv(f).value| > MaxRows {
      assert ReadCsv(CleanFile(f)) == Some(KeepLast(ReadCsv(f).value));
    }
  }

  /** The files after the pass: each listed file is cleaned, every other
      file is untouched, and no file appears or disappears. */
  lemma {:induction false} CleanupFiles(files: map<string, CsvFile>, names: seq<string>)
    ensures Cleanup(files, names).files.Keys == files.Keys
    ensures forall name :: name in files ==>
              Cleanup(files, names).files[name] == if name in names then CleanFile(files[name]) else files[name]
  {
    if names != [] {
      var init := names[..|names| - 1];
      var last := names[|names| - 1];
      CleanupFiles(files, init);
      var before := Cleanup(files, init);
      var after := Cleanup(files, names);
      assert after == CleanupStep(before, last);
      if last in files {
        CleanFileIdempotent(files[last]);
        assert before.files[last] == if last in init then CleanFile(files[last]) else files[last];
        assert after.files[last] == CleanFile(before.files[last]);
      }
      forall name | name in files
        ensures after.files[name] == if name in names then CleanFile(files[name]) else files[name]
      {
        assert name in names <==> name in init || name == last;
        if name != last {
          assert after.files[name] == before.files[name];
        }
      }
    }
  }

  /** After the pass every listed readable table holds exactly its last
      rows in file order (not re-sorted by time), at most 1000 of them. */
  lemma KeepsLatestRows(files: map<string, CsvFile>, names: seq<string>, name: string)
    requires name in names && name in files && ReadCsv(files[name]).Some?
    ensures var after := Cleanup(files, names).files;
            && name in after
            && ReadCsv(after[name]) == Some(KeepLast(ReadCsv(files[name]).value))
            && |ReadCsv(after[name]).value| <= MaxRows
  {
    CleanupFiles(files, names);
    CleanFileIdempotent(files[name]);
  }

  /** A second pass changes nothing. */
  lemma {:induction false} CleanupIdempotent(files: map<string, CsvFile>, names: seq<string>)
    ensures Cleanup(Cleanup(files, names).files, names).files == Cleanup(files, names).files
  {
    var once := Cleanup(files, names).files;
    var twice := Cleanup(once, names).files;
    CleanupFiles(files, names);
    CleanupFiles(once, names);
    forall name | name in once ensures twice[name] == once[name] {
      if name in names {
        CleanFileIdempotent(files[name]);
      }
    }
  }

  /** Rows one file contributes to the counters. */
  function Excess(files: map<string, CsvFile>, name: string): nat {
    if name in files && ReadCsv(files[name]).Some? && |ReadCsv(files[name]).value| > MaxRows
    then |ReadCsv(files[name]).value| - MaxRows else 0
  }

  predicate Readable(files: map<string, CsvFile>, name: string) {
    name in files && ReadCsv(files[name]).Some?
  }

  predicate Long(files: map<string, CsvFile>, name: string) {
    Readable(files, name) && |ReadCsv(files[name]).value| > MaxRows
  }

  /** The counters over the original directory. */
  function Expected(files: map<string, CsvFile>, names: seq<string>): (t: Tally)
    ensures t.filesCleaned <= t.filesProcessed <= |names|
  {
    if names == [] then Tally(0, 0, 0)
    else
      var t := Expected(files, names[..|names| - 1]);
      var name := names[|names| - 1];
      Tally(t.filesProcessed + (if Readable(files, name) then 1 else 0),
            t.filesCleaned + (if Long(files, name) then 1 else 0),
            t.totalRowsRemoved + Excess(files, name))
  }

  predicate Distinct(names: seq<string>) {
    forall i, j :: 0 <= i < j < |names| ==> names[i] != names[j]
  }

  /** For a directory listing (no name twice) the reported counters are: the
      readable files, the files longer than 1000 rows, and the rows above
      1000 summed over those files. */
  lemma {:induction false} CleanupTally(files: map<string, CsvFile>, names: seq<string>)
    requires Distinct(names)
    ensures Cleanup(files, names).tally == Expected(files, names)
  {
    if names != [] {
      var init := names[..|names| - 1];
      var last := names[|names| - 1];
      assert Distinct(init);
      CleanupTally(files, init);
      CleanupFiles(files, init);
      assert last !in init;
    }
  }

  /** A second pass over the same listing finds nothing to remove. */
  lemma SecondPassRemovesNothing(files: map<string, CsvFile>, names: seq<string>)
    ensures Expected(Cleanup(files, names).files, names).filesCleaned == 0
    ensures Expected(Cleanup(files, names).files, names).totalRowsRemoved == 0
  {
    SecondPassRemovesNothingPrefix(files, names, names);
  }

  /** The cleaned directory has no long table among the listed names. */
  lemma {:induction false} SecondPassRemovesNothingPrefix(files: map<string, CsvFile>, names: seq<string>, prefix: seq<string>)
    requires forall n :: n in prefix ==> n in names
    ensures Expected(Cleanup(files, names).files, prefix).filesCleaned == 0
    ensures Expected(Cleanup(files, names).files, prefix).totalRowsRemoved == 0
  {
    if prefix != [] {
      var init := prefix[..|prefix| - 1];
      var last := prefix[|prefix| - 1];
      assert forall n :: n in init ==> n in prefix;
      SecondPassRemovesNothingPrefix(files, names, init);
      var after := Cleanup(files, names).files;
      CleanupFiles(files, names);
      if last in files {
        CleanFileIdempotent(files[last]);
      }
      assert !Long(after, last);
    }
  }

  /** `calculate_data_size()`: the summed sizes of the listed files; a
      listed file that has disappeared is skipped. The on-disk size of a
      table is the parameter `size`. */
  function DataSize(files: map<string, CsvFile>, names: seq<string>, size: CsvFile -> nat): nat {
    if names == [] then 0
    else DataSize(files, names[..|names| - 1], size)
         + (if names[|names| - 1] in files then size(files[names[|names| - 1]]) else 0)
  }
}
