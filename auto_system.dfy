/** The all-in-one monitoring system: one object that owns the data
    directory and the collector, runs collection, retention and monitoring
    jobs, and keeps running totals. The scheduler that calls the jobs is not
    part of this model; each job is a method. The directory listing a job
    sees is the parameter `names`, the on-disk size of a table `size`. */
module AutoSystem {
  import opened Wrappers
  import opened Rows
  import opened Storage
  import opened Snapshot
  import opened Symbols
  import opened AlertPolicy
  import opened Monitor
  import opened Collector
  import opened Retention

  /** Elapsed seconds as hours, minutes and seconds. */
  datatype Uptime = Uptime(hours: int, minutes: int, seconds: int)

  /** The two `divmod` calls of `get_system_stats`. Python's `divmod` floors,
      which for the positive divisors 3600 and 60 is Dafny's division. */
  function UptimeParts(elapsed: int): (u: Uptime)
    ensures u.hours * 3600 + u.minutes * 60 + u.seconds == elapsed
    ensures 0 <= u.minutes < 60 && 0 <= u.seconds < 60
    ensures elapsed >= 0 ==> u.hours >= 0
  {
    var remainder := elapsed % 3600;
    Uptime(elapsed / 3600, remainder / 60, remainder % 60)
  }

  /** The split is the only one with minutes and seconds below 60. */
  lemma UptimePartsUnique(elapsed: int, h: int, m: int, s: int)
    requires 0 <= m < 60 && 0 <= s < 60 && h * 3600 + m * 60 + s == elapsed
    ensures UptimeParts(elapsed) == Uptime(h, m, s)
  {
    var u := UptimeParts(elapsed);
    var r := m * 60 + s;
    assert 0 <= r < 3600;
    assert u.minutes * 60 + u.seconds < 3600;
    assert (h - u.hours) * 3600 == u.minutes * 60 + u.seconds - r;
    assert h == u.hours;
    assert u.minutes * 60 + u.seconds == r;
    assert (m - u.minutes) * 60 == u.seconds - s;
  }

  /** The numeric part of the status report. */
  datatype SystemStats = SystemStats(
    collectionSuccess: nat,
    collectionErrors: nat,
    alertsFound: nat,
    alertsSent: nat,
    dataFiles: nat,
    dataSizeBytes: nat,
    totalSymbols: nat,
    uptime: Uptime,
    systemHealthy: bool,
    lastCleanupTime: Option<int>)

  class AutoMonitorSystem {
    const store: CsvStore
    const collector: DataCollector
    const startTime: int
    const thresholds: Thresholds
    var collectionSuccessTotal: nat
    var collectionErrorsTotal: nat
    var alertsFoundTotal: nat
    var alertsSentTotal: nat
    var lastCleanupTime: Option<int>

    /** The collector writes to the system's directory, and every alert
        found is counted as sent. */
    ghost predicate Valid()
      reads this
    {
      && collector.store == store
      && alertsSentTotal == alertsFoundTotal
    }

    constructor (store: CsvStore, startTime: int, thresholds: Thresholds)
      ensures Valid()
      ensures this.store == store && this.startTime == startTime && this.thresholds == thresholds
      ensures collectionSuccessTotal == 0 && collectionErrorsTotal == 0
      ensures alertsFoundTotal == 0 && alertsSentTotal == 0
      ensures lastCleanupTime == None
    {
      this.store := store;
      this.collector := new DataCollector(store);
      this.startTime := startTime;
      this.thresholds := thresholds;
      collectionSuccessTotal, collectionErrorsTotal := 0, 0;
      alertsFoundTotal, alertsSentTotal := 0, 0;
      lastCleanupTime := None;
    }

    /** `calculate_data_size()`. */
    method CalculateDataSize(names: seq<string>, size: CsvFile -> nat) returns (total: nat)
      ensures total == DataSize(store.files, names, size)
    {
      total := 0;
      var i := 0;
      while i < |names|
        invariant 0 <= i <= |names|
        invariant total == DataSize(store.files, names[..i], size)
      {
        assert names[..i + 1][..i] == names[..i];
        if names[i] in store.files {
          total := total + size(store.files[names[i]]);
        }
        i := i + 1;
      }
      assert names[..i] == names;
    }

    /** `cleanup_old_data()` at time `now`: trims every listed table to its
        latest 1000 rows and records the time of the pass. */
    method CleanupOldData(names: seq<string>, now: int) returns (tally: Tally)
      modifies this, store
      ensures tally == Cleanup(old(store.files), names).tally
      ensures store.files == Cleanup(old(store.files), names).files
      ensures lastCleanupTime == Some(now)
      ensures collectionSuccessTotal == old(collectionSuccessTotal) && collectionErrorsTotal == old(collectionErrorsTotal)
      ensures alertsFoundTotal == old(alertsFoundTotal) && alertsSentTotal == old(alertsSentTotal)
    {
      tally := Tally(0, 0, 0);
      var i := 0;
      while i < |names|
        invariant 0 <= i <= |names|
        invariant CleanupState(store.files, tally) == Cleanup(old(store.files), names[..i])
        invariant collectionSuccessTotal == old(collectionSuccessTotal) && collectionErrorsTotal == old(collectionErrorsTotal)
        invariant alertsFoundTotal == old(alertsFoundTotal) && alertsSentTotal == old(alertsSentTotal)
      {
        assert names[..i + 1][..i] == names[..i];
        var name := names[i];
        ghost var next := CleanupStep(CleanupState(store.files, tally), name);
        if name in store.files {
          var df := ReadCsv(store.files[name]);
          if df.Some? {
            var originalRows := |df.value|;
            if originalRows <= MaxRows {
              tally := tally.(filesProcessed := tally.filesProcessed + 1);
            } else {
              var cleaned := KeepLast(df.value);
              store.WriteTable(name, cleaned);
              tally := Tally(tally.filesProcessed + 1, tally.filesCleaned + 1,
                             tally.totalRowsRemoved + (originalRows - |cleaned|));
            }
          }
        }
        assert CleanupState(store.files, tally) == next;
        i := i + 1;
      }
      assert names[..i] == names;
      lastCleanupTime := Some(now);
    }

    /** `check_and_cleanup_data()`: the pass runs exactly when the directory
        has reached 800 MiB; otherwise nothing changes. */
    method CheckAndCleanupData(names: seq<string>, size: CsvFile -> nat, now: int) returns (result: Option<Tally>)
      modifies this, store
      ensures DataSize(old(store.files), names, size) >= SizeThreshold ==>
                && result == Some(Cleanup(old(store.files), names).tally)
                && store.files == Cleanup(old(store.files), names).files
                && lastCleanupTime == Some(now)
      ensures DataSize(old(store.files), names, size) < SizeThreshold ==>
                && result == None
                && store.files == old(store.files)
                && lastCleanupTime == old(lastCleanupTime)
      ensures collectionSuccessTotal == old(collectionSuccessTotal) && collectionErrorsTotal == old(collectionErrorsTotal)
      ensures alertsFoundTotal == old(alertsFoundTotal) && alertsSentTotal == old(alertsSentTotal)
    {
      var currentSize := CalculateDataSize(names, size);
      if currentSize >= SizeThreshold {
        var tally := CleanupOldData(names, now);
        result := Some(tally);
      } else {
        result := None;
      }
    }

    /** `monitoring_job()`: one tiered pass; the alerts found are added to
        both totals. */
    method MonitoringJob(names: seq<string>, caps: string -> Option<real>, faults: set<string>)
      requires Valid()
      modifies this
      ensures Valid()
      ensures alertsFoundTotal == old(alertsFoundTotal) + |TieredAlerts(store.files, names, caps, faults, thresholds)|
      ensures collectionSuccessTotal == old(collectionSuccessTotal) && collectionErrorsTotal == old(collectionErrorsTotal)
      ensures lastCleanupTime == old(lastCleanupTime)
    {
      var alerts := MonitorAllSymbolsTiered(store.files, names, caps, faults, thresholds);
      alertsFoundTotal := alertsFoundTotal + |alerts|;
      alertsSentTotal := alertsSentTotal + |alerts|;
    }

    /** `collection_job()`: collect, add the counts to the totals, run the
        retention check on the grown directory, then monitor what is left. */
    method CollectionJob(exchange: Option<seq<SymbolInfo>>, fetch: string -> Option<Responses>, now: int,
                         names: seq<string>, size: CsvFile -> nat,
                         caps: string -> Option<real>, faults: set<string>)
      requires Valid()
      modifies this, store
      ensures Valid()
      ensures var symbols := CollectedSymbols(exchange);
              var rows := AutoSnapshotRows(fetch, now);
              var collected := AppendAll(old(store.files), symbols, rows);
              var kept := if DataSize(collected, names, size) >= SizeThreshold then Cleanup(collected, names).files else collected;
              && collectionSuccessTotal == old(collectionSuccessTotal) + Successes(symbols, rows)
              && collectionErrorsTotal == old(collectionErrorsTotal) + (|symbols| - Successes(symbols, rows))
              && store.files == kept
              && alertsFoundTotal == old(alertsFoundTotal) + |TieredAlerts(kept, names, caps, faults, thresholds)|
              && lastCleanupTime == if DataSize(collected, names, size) >= SizeThreshold then Some(now) else old(lastCleanupTime)
    {
      var symbols, success, errors := collector.CollectData(exchange, fetch, now);
      collectionSuccessTotal := collectionSuccessTotal + success;
      collectionErrorsTotal := collectionErrorsTotal + errors;
      ghost var collected := store.files;
      var cleanup := CheckAndCleanupData(names, size, now);
      ghost var kept := store.files;
      assert kept == if DataSize(collected, names, size) >= SizeThreshold then Cleanup(collected, names).files else collected;
      MonitoringJob(names, caps, faults);
    }

    /** `get_system_stats()` at time `now`; `totalSymbols` is the length of
        the directory listing fetched for the report. */
    function GetSystemStats(now: int, names: seq<string>, size: CsvFile -> nat, totalSymbols: nat): (stats: SystemStats)
      reads this, store
      ensures stats.alertsSent == stats.alertsFound <== Valid()
      ensures stats.uptime.hours * 3600 + stats.uptime.minutes * 60 + stats.uptime.seconds == now - startTime
      ensures stats.dataFiles == |names|
    {
      SystemStats(collectionSuccessTotal, collectionErrorsTotal, alertsFoundTotal, alertsSentTotal,
                  |names|, DataSize(store.files, names, size), totalSymbols,
                  UptimeParts(now - startTime), true, lastCleanupTime)
    }
  }
}
