/** The engine: `LoadEntries` gathers entries from exactly one source (a
    snapshot, a JSONL store, a list of shard files, or a log file that is
    parsed and persisted), then applies retention; `QueryEntries` filters
    with or without the index, applies the limit and reports metrics;
    `IngestEntries` persists new entries and appends them. File access is
    the `Io` record of functions and the clock is a parameter. */
module Engine {
  import opened Types
  import opened Seqs
  import opened Query
  import opened LogIndex
  import opened Ingest
  import opened Text

  /** `snapshot.Version`. */
  const SnapshotVersion := 1

  const VersionMismatch := "snapshot version mismatch"

  /** A snapshot file as `snapshot.Load` decodes it; of its metadata only
      the version is read here. */
  datatype Snapshot = Snapshot(version: int, entries: seq<LogEntry>, index: SnapshotIndex)

  /** One write to the store file or the shard directory. */
  datatype Write =
    | AppendHeader(path: string, text: string)
    | AppendJsonl(path: string, entries: seq<LogEntry>)
    | AppendShards(dir: string, entries: seq<LogEntry>)

  /** The file system as the engine sees it: `snapshot.Load`,
      `store.LoadJSONL`, `store.LoadJSONLFromMany`, opening and scanning a
      log file, the parsers behind `ingest`, and performing a write (`None`
      when it succeeds, the error text otherwise). */
  datatype Io = Io(
    loadSnapshot: string -> Result<Snapshot>,
    loadJsonl: string -> Result<seq<LogEntry>>,
    loadMany: seq<string> -> Result<seq<LogEntry>>,
    readLines: string -> Result<seq<string>>,
    parsers: Parsers,
    perform: Write -> Option<string>)

  /** `LoadOptions`; `retention` is a duration in seconds. */
  datatype LoadOptions = LoadOptions(
    file: string,
    format: Format,
    loadPath: string,
    storePath: string,
    snapshotPath: string,
    shardDir: string,
    shardPaths: seq<string>,
    replay: bool,
    retention: int,
    storeHeaderText: string)

  datatype LoadStats = LoadStats(logsRead: int, logsIngested: int)

  datatype LoadResult = LoadResult(entries: seq<LogEntry>, stats: LoadStats, index: Option<Index>)

  datatype IngestStats = IngestStats(logsIngested: int)

  datatype QueryOptions = QueryOptions(filters: Filters, useIndex: bool, limit: int, index: Option<Index>)

  /** `Metrics`; the two instants are seconds on the same clock as the
      entries. */
  datatype Metrics = Metrics(
    startedAt: int,
    finishedAt: int,
    logsRead: int,
    logsIngested: int,
    logsFilteredOut: int,
    logsReturned: int,
    indexEnabled: bool)

  // ---------------------------------------------------------------------
  // Persisting new entries

  /** The writes issued for new entries, in order: the header and then the
      entries to the store when a store is set (the header only when there
      is header text), then the entries to the shard directory when one is
      set. */
  function PersistWrites(storePath: string, shardDir: string, header: string, entries: seq<LogEntry>): seq<Write> {
    (if storePath != "" then
       (if header != "" then [AppendHeader(storePath, header)] else []) + [AppendJsonl(storePath, entries)]
     else [])
    + (if shardDir != "" then [AppendShards(shardDir, entries)] else [])
  }

  /** The error of the first write that fails, if any. */
  function FirstFailure(ws: seq<Write>, perform: Write -> Option<string>): Option<string> {
    if ws == [] then None
    else if perform(ws[0]).Some? then perform(ws[0])
    else FirstFailure(ws[1..], perform)
  }

  /** The writes attempted: every write up to and including the first that
      fails. */
  function Attempted(ws: seq<Write>, perform: Write -> Option<string>): seq<Write> {
    if ws == [] then []
    else if perform(ws[0]).Some? then [ws[0]]
    else [ws[0]] + Attempted(ws[1..], perform)
  }

  /** The writes `LoadEntries` and `IngestEntries` perform, stopping at the
      first error. */
  method Persist(storePath: string, shardDir: string, header: string, entries: seq<LogEntry>, perform: Write -> Option<string>)
    returns (err: Option<string>, writes: seq<Write>)
    ensures err == FirstFailure(PersistWrites(storePath, shardDir, header, entries), perform)
    ensures writes == Attempted(PersistWrites(storePath, shardDir, header, entries), perform)
  {
    ghost var all := PersistWrites(storePath, shardDir, header, entries);
    ghost var todo := all;
    writes := [];
    if storePath != "" {
      if header != "" {
        var w := AppendHeader(storePath, header);
        AttemptStep(all, todo, writes, perform);
        writes := writes + [w];
        err := perform(w);
        if err.Some? {
          return;
        }
        todo := todo[1..];
      }
      var w := AppendJsonl(storePath, entries);
      AttemptStep(all, todo, writes, perform);
      writes := writes + [w];
      err := perform(w);
      if err.Some? {
        return;
      }
      todo := todo[1..];
    }
    if shardDir != "" {
      var w := AppendShards(shardDir, entries);
      AttemptStep(all, todo, writes, perform);
      writes := writes + [w];
      err := perform(w);
      if err.Some? {
        return;
      }
      todo := todo[1..];
    }
    assert todo == [];
    err := None;
  }

  /** Performing the next write keeps what is attempted and the first
      error in step with the whole list. */
  lemma AttemptStep(all: seq<Write>, todo: seq<Write>, writes: seq<Write>, perform: Write -> Option<string>)
    requires todo != []
    requires FirstFailure(all, perform) == FirstFailure(todo, perform)
    requires Attempted(all, perform) == writes + Attempted(todo, perform)
    ensures perform(todo[0]).Some? ==>
      FirstFailure(all, perform) == perform(todo[0]) && Attempted(all, perform) == writes + [todo[0]]
    ensures perform(todo[0]).None? ==>
      FirstFailure(all, perform) == FirstFailure(todo[1..], perform)
      && Attempted(all, perform) == (writes + [todo[0]]) + Attempted(todo[1..], perform)
  {
  }

  /** The writes attempted are a prefix of the writes asked for: all of
      them, each succeeding, when there is no error; otherwise they end at
      the write that failed, with that write's error, and every write
      before it succeeded. */
  lemma {:induction false} AttemptedShape(ws: seq<Write>, perform: Write -> Option<string>)
    ensures Attempted(ws, perform) <= ws
    ensures FirstFailure(ws, perform).None? <==> Attempted(ws, perform) == ws && forall w :: w in ws ==> perform(w).None?
    ensures FirstFailure(ws, perform).Some? ==>
      var a := Attempted(ws, perform);
      a != [] && perform(a[|a| - 1]) == FirstFailure(ws, perform)
      && forall i :: 0 <= i < |a| - 1 ==> perform(a[i]).None?
  {
    if ws != [] && perform(ws[0]).None? {
      AttemptedShape(ws[1..], perform);
      assert forall w :: w in ws ==> w == ws[0] || w in ws[1..];
    }
  }

  /** Every write carries the new entries; a header is written only when a
      store and header text are both set, and first; the shard write comes
      last. */
  lemma PersistShape(storePath: string, shardDir: string, header: string, entries: seq<LogEntry>)
    ensures var ws := PersistWrites(storePath, shardDir, header, entries);
      (forall i :: 0 <= i < |ws| && ws[i].AppendHeader? ==>
         i == 0 && storePath != "" && header != "" && ws[i] == AppendHeader(storePath, header))
      && (forall i :: 0 <= i < |ws| && ws[i].AppendJsonl? ==> ws[i] == AppendJsonl(storePath, entries) && storePath != "")
      && (forall i :: 0 <= i < |ws| && ws[i].AppendShards? ==>
            i == |ws| - 1 && shardDir != "" && ws[i] == AppendShards(shardDir, entries))
      && |ws| == (if storePath != "" then (if header != "" then 2 else 1) else 0) + (if shardDir != "" then 1 else 0)
  {
  }

  // ---------------------------------------------------------------------
  // Retention

  function KeepF(cutoff: int): LogEntry -> bool {
    (e: LogEntry) => e.ts >= cutoff
  }

  /** `applyRetention`: the entries not before the cutoff, in order. */
  function RetentionOf(es: seq<LogEntry>, cutoff: int): seq<LogEntry> {
    Select(es, KeepF(cutoff))
  }

  method ApplyRetention(entries: seq<LogEntry>, cutoff: int) returns (filtered: seq<LogEntry>)
    ensures filtered == RetentionOf(entries, cutoff)
  {
    filtered := [];
    for i := 0 to |entries|
      invariant filtered == RetentionOf(entries[..i], cutoff)
    {
      var e := entries[i];
      assert entries[..i + 1] == entries[..i] + [e];
      assert entries[..i + 1][..i] == entries[..i];
      if e.ts < cutoff {
        continue;
      }
      filtered := filtered + [e];
    }
    assert entries[..|entries|] == entries;
  }

  /** Retention keeps exactly the entries at or after the cutoff, keeps
      their order across any split of the input, and is the query filter
      `after = cutoff` run without an index. */
  lemma RetentionMeaning(a: seq<LogEntry>, b: seq<LogEntry>, cutoff: int)
    ensures forall x :: x in RetentionOf(a, cutoff) <==> x in a && x.ts >= cutoff
    ensures RetentionOf(a + b, cutoff) == RetentionOf(a, cutoff) + RetentionOf(b, cutoff)
    ensures RetentionOf(a, cutoff) == FilteredOf(a, None, Empty.(after := Some(cutoff)))
  {
    SelectMembers(a, KeepF(cutoff));
    RetentionSplits(a, b, cutoff);
    var f := Empty.(after := Some(cutoff));
    SelectSame(a, KeepF(cutoff), AndF(f));
  }

  // ---------------------------------------------------------------------
  // Loading

  /** The store entries replayed before a log file is parsed. */
  function Replayed(opts: LoadOptions, io: Io): Result<seq<LogEntry>> {
    if opts.replay && opts.storePath != "" then io.loadJsonl(opts.storePath) else Ok([])
  }

  function ParsedEntries(opts: LoadOptions, io: Io): Result<seq<LogEntry>> {
    ReadFileOf(io.parsers, io.readLines, opts.file, opts.format)
  }

  /** The snapshot source: its entries and re-hydrated index, or, with
      the store replayed on request, its entries followed by the store's
      and no index. */
  function FromSnapshot(opts: LoadOptions, io: Io): Result<LoadResult> {
    match io.loadSnapshot(opts.snapshotPath)
    case Err(m) => Err(m)
    case Ok(snap) =>
      if snap.version != SnapshotVersion then Err(VersionMismatch)
      else if opts.replay && opts.storePath != "" then
        match io.loadJsonl(opts.storePath)
        case Err(m) => Err(m)
        case Ok(loaded) =>
          var n := |snap.entries| + |loaded|;
          Ok(LoadResult(snap.entries + loaded, LoadStats(n, n), None))
      else
        var n := |snap.entries|;
        Ok(LoadResult(snap.entries, LoadStats(n, n), Some(FromSnapshotOf(snap.index, snap.entries))))
  }

  /** A list of entries loaded whole, counted as read and ingested. */
  function Loaded(r: Result<seq<LogEntry>>): Result<LoadResult> {
    match r
    case Err(m) => Err(m)
    case Ok(loaded) => Ok(LoadResult(loaded, LoadStats(|loaded|, |loaded|), None))
  }

  /** The log-file source: the replayed store entries, then the parsed
      ones, which alone are counted and which are persisted. */
  function FromFile(opts: LoadOptions, io: Io): Result<LoadResult> {
    match Replayed(opts, io)
    case Err(m) => Err(m)
    case Ok(replayed) =>
      match ParsedEntries(opts, io)
      case Err(m) => Err(m)
      case Ok(parsed) =>
        match FirstFailure(PersistWrites(opts.storePath, opts.shardDir, opts.storeHeaderText, parsed), io.perform)
        case Some(m) => Err(m)
        case None => Ok(LoadResult(replayed + parsed, LoadStats(|parsed|, |parsed|), None))
  }

  /** What `LoadEntries` gathers before retention, from the first source
      that is set: a snapshot, a store file, shard files, or else a log
      file. */
  function Gathered(opts: LoadOptions, io: Io): Result<LoadResult> {
    if opts.snapshotPath != "" then FromSnapshot(opts, io)
    else if opts.loadPath != "" then Loaded(io.loadJsonl(opts.loadPath))
    else if |opts.shardPaths| > 0 then Loaded(io.loadMany(opts.shardPaths))
    else FromFile(opts, io)
  }

  /** The writes `LoadEntries` attempts: only a parsed log file is
      persisted, once the replay and the parse have succeeded. */
  function LoadWrites(opts: LoadOptions, io: Io): seq<Write> {
    if opts.snapshotPath != "" || opts.loadPath != "" || |opts.shardPaths| > 0 then []
    else if Replayed(opts, io).Err? || ParsedEntries(opts, io).Err? then []
    else Attempted(PersistWrites(opts.storePath, opts.shardDir, opts.storeHeaderText, ParsedEntries(opts, io).value), io.perform)
  }

  /** Retention as the code applies it: the entries are filtered but the
      loaded index is kept. */
  function RetainAsWritten(g: LoadResult, retention: int, now: int): LoadResult {
    if retention > 0 then g.(entries := RetentionOf(g.entries, now - retention)) else g
  }

  /** `LoadEntries` as the code computes it. */
  function LoadAsWritten(opts: LoadOptions, io: Io, now: int): Result<LoadResult> {
    match Gathered(opts, io)
    case Err(m) => Err(m)
    case Ok(g) => Ok(RetainAsWritten(g, opts.retention, now))
  }

  /** Retention that also drops the loaded index, which describes the
      entries before retention; a query then builds an index over the
      entries that remain. */
  function Retain(g: LoadResult, retention: int, now: int): LoadResult {
    if retention > 0 then LoadResult(RetentionOf(g.entries, now - retention), g.stats, None) else g
  }

  /** `LoadEntries` with the loaded index dropped under retention. */
  function LoadOf(opts: LoadOptions, io: Io, now: int): Result<LoadResult> {
    match Gathered(opts, io)
    case Err(m) => Err(m)
    case Ok(g) => Ok(Retain(g, opts.retention, now))
  }

  /** The snapshot branch of `LoadEntries`. */
  method LoadSnapshot(opts: LoadOptions, io: Io) returns (r: Result<LoadResult>)
    ensures r == FromSnapshot(opts, io)
  {
    var entries: seq<LogEntry> := [];
    var stats := LoadStats(0, 0);
    var loadedIndex: Option<Index> := None;
    var loadedSnap := io.loadSnapshot(opts.snapshotPath);
    if loadedSnap.Err? {
      return Err(loadedSnap.msg);
    }
    var snap := loadedSnap.value;
    if snap.version != SnapshotVersion {
      return Err(VersionMismatch);
    }
    entries := entries + snap.entries;
    stats := LoadStats(|snap.entries|, |snap.entries|);
    var rehydrated := FromSnapshotIndex(snap.index, snap.entries);
    loadedIndex := Some(rehydrated);
    if opts.replay && opts.storePath != "" {
      var loaded := io.loadJsonl(opts.storePath);
      if loaded.Err? {
        return Err(loaded.msg);
      }
      entries := entries + loaded.value;
      stats := LoadStats(stats.logsRead + |loaded.value|, stats.logsIngested + |loaded.value|);
      loadedIndex := None;
    }
    assert [] + snap.entries == snap.entries;
    return Ok(LoadResult(entries, stats, loadedIndex));
  }

  /** The last branch of `LoadEntries`: replay, parse the log file, and
      persist what was parsed. */
  method LoadFile(opts: LoadOptions, io: Io) returns (r: Result<LoadResult>, writes: seq<Write>)
    requires opts.snapshotPath == "" && opts.loadPath == "" && |opts.shardPaths| == 0
    ensures r == FromFile(opts, io)
    ensures writes == LoadWrites(opts, io)
  {
    var entries: seq<LogEntry> := [];
    writes := [];
    if opts.replay && opts.storePath != "" {
      var loaded := io.loadJsonl(opts.storePath);
      if loaded.Err? {
        return Err(loaded.msg), writes;
      }
      assert [] + loaded.value == loaded.value;
      entries := entries + loaded.value;
    }
    assert Replayed(opts, io) == Ok(entries);
    var newEntries := ReadLogFileWithFormat(io.parsers, io.readLines, opts.file, opts.format);
    if newEntries.Err? {
      return Err(newEntries.msg), writes;
    }
    var parsed := newEntries.value;
    assert ParsedEntries(opts, io) == Ok(parsed);
    entries := entries + parsed;
    var stats := LoadStats(|parsed|, |parsed|);
    var err;
    err, writes := Persist(opts.storePath, opts.shardDir, opts.storeHeaderText, parsed, io.perform);
    if err.Some? {
      return Err(err.value), writes;
    }
    return Ok(LoadResult(entries, stats, None)), writes;
  }

  /** `LoadEntries`: the first source that is set, then retention. */
  method LoadEntries(opts: LoadOptions, io: Io, now: int) returns (r: Result<LoadResult>, writes: seq<Write>)
    ensures r == LoadOf(opts, io, now)
    ensures writes == LoadWrites(opts, io)
  {
    var gathered: Result<LoadResult>;
    writes := [];
    if opts.snapshotPath != "" {
      gathered := LoadSnapshot(opts, io);
    } else if opts.loadPath != "" {
      var loaded := io.loadJsonl(opts.loadPath);
      if loaded.Err? {
        return Err(loaded.msg), writes;
      }
      gathered := Ok(LoadResult(loaded.value, LoadStats(|loaded.value|, |loaded.value|), None));
    } else if |opts.shardPaths| > 0 {
      var loaded := io.loadMany(opts.shardPaths);
      if loaded.Err? {
        return Err(loaded.msg), writes;
      }
      gathered := Ok(LoadResult(loaded.value, LoadStats(|loaded.value|, |loaded.value|), None));
    } else {
      gathered, writes := LoadFile(opts, io);
    }
    if gathered.Err? {
      return Err(gathered.msg), writes;
    }
    var entries := gathered.value.entries;
    var loadedIndex := gathered.value.index;
    if opts.retention > 0 {
      var cutoff := now - opts.retention;
      entries := ApplyRetention(entries, cutoff);
      loadedIndex := None;
    }
    r := Ok(LoadResult(entries, gathered.value.stats, loadedIndex));
  }

  /** A snapshot path wins over every other source: the store path, shard
      paths, log file and format are then never looked at (beyond the
      store replayed on request), and nothing is written. */
  lemma LoadSnapshotFirst(opts: LoadOptions, other: LoadOptions, io: Io, now: int)
    requires opts.snapshotPath != "" && other.snapshotPath == opts.snapshotPath
    requires other.replay == opts.replay && other.storePath == opts.storePath
    requires other.retention == opts.retention
    ensures LoadOf(opts, io, now) == LoadOf(other, io, now)
    ensures LoadWrites(opts, io) == []
  {
  }

  /** Without a snapshot, a load path wins over shard paths and the log
      file. */
  lemma LoadPathSecond(opts: LoadOptions, other: LoadOptions, io: Io, now: int)
    requires opts.snapshotPath == "" && other.snapshotPath == ""
    requires opts.loadPath != "" && other.loadPath == opts.loadPath
    requires other.retention == opts.retention
    ensures LoadOf(opts, io, now) == LoadOf(other, io, now)
    ensures LoadWrites(opts, io) == []
  {
  }

  /** Then shard paths win over the log file. */
  lemma ShardPathsThird(opts: LoadOptions, other: LoadOptions, io: Io, now: int)
    requires opts.snapshotPath == "" && other.snapshotPath == ""
    requires opts.loadPath == "" && other.loadPath == ""
    requires |opts.shardPaths| > 0 && other.shardPaths == opts.shardPaths
    requires other.retention == opts.retention
    ensures LoadOf(opts, io, now) == LoadOf(other, io, now)
    ensures LoadWrites(opts, io) == []
  {
  }

  /** A snapshot of another version is rejected. */
  lemma LoadVersionMismatch(opts: LoadOptions, io: Io, now: int)
    requires opts.snapshotPath != ""
    requires io.loadSnapshot(opts.snapshotPath).Ok?
    requires io.loadSnapshot(opts.snapshotPath).value.version != SnapshotVersion
    ensures LoadOf(opts, io, now) == Err(VersionMismatch)
  {
  }

  /** An index is returned only from a snapshot that was not replayed onto
      and was not cut by retention, and it is the snapshot's index
      re-hydrated over the snapshot's entries. */
  lemma LoadIndexSource(opts: LoadOptions, io: Io, now: int)
    requires LoadOf(opts, io, now).Ok? && LoadOf(opts, io, now).value.index.Some?
    ensures opts.snapshotPath != "" && !(opts.replay && opts.storePath != "") && opts.retention <= 0
    ensures var snap := io.loadSnapshot(opts.snapshotPath).value;
      LoadOf(opts, io, now).value.index == Some(FromSnapshotOf(snap.index, snap.entries))
      && LoadOf(opts, io, now).value.entries == snap.entries
  {
  }

  /** Conversely, a version-1 snapshot that is neither replayed onto nor
      cut by retention is returned whole, counted once as read and once as
      ingested, with its stored index re-hydrated over its entries. */
  lemma LoadSnapshotIndex(opts: LoadOptions, io: Io, now: int)
    requires opts.snapshotPath != "" && !(opts.replay && opts.storePath != "") && opts.retention <= 0
    requires io.loadSnapshot(opts.snapshotPath).Ok?
    requires io.loadSnapshot(opts.snapshotPath).value.version == SnapshotVersion
    ensures var snap := io.loadSnapshot(opts.snapshotPath).value;
      var n := |snap.entries|;
      LoadOf(opts, io, now)
        == Ok(LoadResult(snap.entries, LoadStats(n, n), Some(FromSnapshotOf(snap.index, snap.entries))))
  {
  }

  /** As written, the snapshot's index comes back whatever the retention:
      the entries are cut, the index re-hydrated over the uncut entries is
      kept. */
  lemma LoadSnapshotIndexAsWritten(opts: LoadOptions, io: Io, now: int)
    requires opts.snapshotPath != "" && !(opts.replay && opts.storePath != "")
    requires io.loadSnapshot(opts.snapshotPath).Ok?
    requires io.loadSnapshot(opts.snapshotPath).value.version == SnapshotVersion
    ensures var snap := io.loadSnapshot(opts.snapshotPath).value;
      var n := |snap.entries|;
      var kept := if opts.retention > 0 then RetentionOf(snap.entries, now - opts.retention) else snap.entries;
      LoadAsWritten(opts, io, now)
        == Ok(LoadResult(kept, LoadStats(n, n), Some(FromSnapshotOf(snap.index, snap.entries))))
  {
  }

  /** The corrected load differs from the load as written only in the
      index, and only under retention: the error, the entries and the
      counts are the same. */
  lemma LoadCorrectionOnlyIndex(opts: LoadOptions, io: Io, now: int)
    ensures LoadOf(opts, io, now).Err? <==> LoadAsWritten(opts, io, now).Err?
    ensures LoadOf(opts, io, now).Err? ==> LoadOf(opts, io, now) == LoadAsWritten(opts, io, now)
    ensures LoadOf(opts, io, now).Ok? ==>
      LoadOf(opts, io, now).value
        == if opts.retention > 0 then LoadAsWritten(opts, io, now).value.(index := None)
           else LoadAsWritten(opts, io, now).value
  {
  }

  /** Whatever the source, the index returned describes the entries
      returned, provided a snapshot's stored index is the one
      `snapshot.Create` writes for its entries. */
  lemma LoadIndexConsistent(opts: LoadOptions, io: Io, now: int)
    requires io.loadSnapshot(opts.snapshotPath).Ok? ==>
      io.loadSnapshot(opts.snapshotPath).value.index == SnapshotOf(io.loadSnapshot(opts.snapshotPath).value.entries)
    requires LoadOf(opts, io, now).Ok?
    ensures Consistent(LoadOf(opts, io, now).value.entries, LoadOf(opts, io, now).value.index)
  {
    if LoadOf(opts, io, now).value.index.Some? {
      LoadIndexSource(opts, io, now);
      SnapshotRoundTrip(io.loadSnapshot(opts.snapshotPath).value.entries);
    }
  }

  /** From a log file whose writes all succeed, the entries are the
      replayed store entries followed by the parsed ones (each cut by
      retention when it is set), only the parsed ones are counted, and no
      index is returned. */
  lemma LoadFileOrder(opts: LoadOptions, io: Io, now: int)
    requires opts.snapshotPath == "" && opts.loadPath == "" && |opts.shardPaths| == 0
    requires Replayed(opts, io).Ok? && ParsedEntries(opts, io).Ok?
    requires FirstFailure(PersistWrites(opts.storePath, opts.shardDir, opts.storeHeaderText,
                                       ParsedEntries(opts, io).value), io.perform).None?
    ensures var replayed := Replayed(opts, io).value;
      var parsed := ParsedEntries(opts, io).value;
      var cutoff := now - opts.retention;
      LoadOf(opts, io, now) == Ok(LoadResult(
        if opts.retention > 0 then RetentionOf(replayed, cutoff) + RetentionOf(parsed, cutoff) else replayed + parsed,
        LoadStats(|parsed|, |parsed|), None))
  {
    var replayed := Replayed(opts, io).value;
    var parsed := ParsedEntries(opts, io).value;
    FromFileOrder(opts, io);
    assert Gathered(opts, io) == FromFile(opts, io);
    RetentionSplits(replayed, parsed, now - opts.retention);
  }

  /** Retention filters the two parts of a sequence separately. */
  lemma RetentionSplits(a: seq<LogEntry>, b: seq<LogEntry>, cutoff: int)
    ensures RetentionOf(a + b, cutoff) == RetentionOf(a, cutoff) + RetentionOf(b, cutoff)
  {
    SelectAppend(a, b, KeepF(cutoff));
  }

  /** From a log file, a failed write fails the load with its error. */
  lemma LoadWriteFails(opts: LoadOptions, io: Io, now: int)
    requires opts.snapshotPath == "" && opts.loadPath == "" && |opts.shardPaths| == 0
    requires Replayed(opts, io).Ok? && ParsedEntries(opts, io).Ok?
    requires FirstFailure(PersistWrites(opts.storePath, opts.shardDir, opts.storeHeaderText,
                                       ParsedEntries(opts, io).value), io.perform).Some?
    ensures LoadOf(opts, io, now) == Err(FirstFailure(PersistWrites(opts.storePath, opts.shardDir,
      opts.storeHeaderText, ParsedEntries(opts, io).value), io.perform).value)
  {
    FromFileOrder(opts, io);
    assert Gathered(opts, io) == FromFile(opts, io);
  }

  /** The file source on its own: the first failing write fails it,
      otherwise it gives the replayed entries followed by the parsed ones. */
  lemma FromFileOrder(opts: LoadOptions, io: Io)
    requires Replayed(opts, io).Ok? && ParsedEntries(opts, io).Ok?
    ensures var parsed := ParsedEntries(opts, io).value;
      var ws := PersistWrites(opts.storePath, opts.shardDir, opts.storeHeaderText, parsed);
      && (FirstFailure(ws, io.perform).Some? ==> FromFile(opts, io) == Err(FirstFailure(ws, io.perform).value))
      && (FirstFailure(ws, io.perform).None? ==>
            FromFile(opts, io) == Ok(LoadResult(Replayed(opts, io).value + parsed, LoadStats(|parsed|, |parsed|), None)))
  {
  }

  // ---------------------------------------------------------------------
  // Querying

  /** The entries a query keeps before the limit: the index path (with the
      given index, or one built over the entries) or the in-order scan. */
  ghost function QueryFiltered(entries: seq<LogEntry>, opts: QueryOptions): seq<LogEntry> {
    if opts.useIndex then
      FilteredOf(entries, Some(if opts.index.Some? then opts.index.value else BuildOf(entries)), opts.filters)
    else Select(entries, MatchingF(opts.filters))
  }

  /** The limit: a positive limit below the count truncates to that many
      leading entries. */
  function LimitOf(s: seq<LogEntry>, limit: int): seq<LogEntry> {
    if limit > 0 && |s| > limit then s[..limit] else s
  }

  /** `QueryEntries`; `startedAt` and `finishedAt` are the two clock
      readings. */
  method QueryEntries(entries: seq<LogEntry>, loadStats: LoadStats, opts: QueryOptions, startedAt: int, finishedAt: int)
    returns (limited: seq<LogEntry>, metrics: Metrics)
    ensures limited == LimitOf(QueryFiltered(entries, opts), opts.limit)
    ensures metrics == Metrics(startedAt, finishedAt, loadStats.logsRead, loadStats.logsIngested,
      |entries| - |QueryFiltered(entries, opts)|, |limited|, opts.useIndex)
  {
    var filtered: seq<LogEntry>;
    if opts.useIndex {
      var idx := opts.index;
      if idx.None? {
        var built := Build(entries);
        idx := Some(built);
      }
      filtered := FilterWithFilters(entries, idx, opts.filters);
    } else {
      filtered := [];
      for i := 0 to |entries|
        invariant filtered == Select(entries[..i], MatchingF(opts.filters))
      {
        var e := entries[i];
        assert entries[..i + 1] == entries[..i] + [e];
        assert entries[..i + 1][..i] == entries[..i];
        if !Matches(e, opts.filters) {
          continue;
        }
        filtered := filtered + [e];
      }
      assert entries[..|entries|] == entries;
    }
    limited := filtered;
    if opts.limit > 0 && |filtered| > opts.limit {
      limited := filtered[..opts.limit];
    }
    metrics := Metrics(startedAt, finishedAt, loadStats.logsRead, loadStats.logsIngested,
      |entries| - |filtered|, |limited|, opts.useIndex);
  }

  /** A positive limit keeps the first `min(limit, count)` entries; a limit
      of zero or below keeps them all. */
  lemma LimitPrefix(s: seq<LogEntry>, limit: int)
    ensures LimitOf(s, limit) <= s
    ensures limit > 0 ==> |LimitOf(s, limit)| == if |s| < limit then |s| else limit
    ensures limit <= 0 ==> LimitOf(s, limit) == s
  {
  }

  /** The index the query uses describes the entries (none was given, or
      the one given does). */
  ghost predicate QueryIndexOk(entries: seq<LogEntry>, opts: QueryOptions) {
    opts.index.None? || opts.index == Some(BuildOf(entries))
  }

  /** With a fitting index or none, a query keeps exactly the matching
      entries, never more entries than it was given, so the count filtered
      out lies between zero and the entry count. */
  lemma QueryMeaning(entries: seq<LogEntry>, opts: QueryOptions)
    requires QueryIndexOk(entries, opts)
    ensures forall x :: x in QueryFiltered(entries, opts) <==> x in entries && Matches(x, opts.filters)
    ensures 0 <= |entries| - |QueryFiltered(entries, opts)| <= |entries|
  {
    if opts.useIndex {
      var idx := Some(if opts.index.Some? then opts.index.value else BuildOf(entries));
      FilteredMembers(entries, idx, opts.filters);
      FilteredLength(entries, idx, opts.filters);
    } else {
      SelectMembers(entries, MatchingF(opts.filters));
    }
  }

  /** On duplicate-free entries the index changes at most the order, so
      the count filtered out is the same with and without it. */
  lemma QueryIndexPermutes(entries: seq<LogEntry>, opts: QueryOptions)
    requires QueryIndexOk(entries, opts) && NoDups(entries)
    ensures multiset(QueryFiltered(entries, opts)) == multiset(QueryFiltered(entries, opts.(useIndex := false)))
    ensures |QueryFiltered(entries, opts)| == |QueryFiltered(entries, opts.(useIndex := false))|
  {
    if opts.useIndex {
      var idx := Some(if opts.index.Some? then opts.index.value else BuildOf(entries));
      FilteredPermutesScan(entries, idx, opts.filters);
      assert |multiset(QueryFiltered(entries, opts))| == |multiset(QueryFiltered(entries, opts.(useIndex := false)))|;
    }
  }

  /** Without the index the result is the in-order scan cut to the limit. */
  lemma QueryScanOrder(entries: seq<LogEntry>, opts: QueryOptions)
    requires !opts.useIndex
    ensures LimitOf(QueryFiltered(entries, opts), opts.limit) <= Select(entries, MatchingF(opts.filters))
  {
    LimitPrefix(Select(entries, MatchingF(opts.filters)), opts.limit);
  }

  /** The index kept after retention describes entries that are gone: a
      well-formed one-entry snapshot, loaded with retention set while its
      entry is older than the cutoff, yields no entries but the index of
      that entry, and a query for the entry's level through that index
      returns the entry, so one more entry is returned than was loaded and
      the count filtered out is -1. */
  lemma StaleIndexAfterRetention(opts: LoadOptions, io: Io, now: int, e: LogEntry)
    requires opts.snapshotPath != "" && !opts.replay && opts.retention > 0
    requires e.level != "" && e.ts < now - opts.retention
    requires io.loadSnapshot(opts.snapshotPath) == Ok(Snapshot(SnapshotVersion, [e], SnapshotOf([e])))
    ensures LoadAsWritten(opts, io, now) == Ok(LoadResult([], LoadStats(1, 1), Some(BuildOf([e]))))
    ensures var q := QueryOptions(Empty.(level := e.level), true, 0, Some(BuildOf([e])));
      QueryFiltered([], q) == [e] && 0 - |QueryFiltered([], q)| == -1
    ensures LoadOf(opts, io, now) == Ok(LoadResult([], LoadStats(1, 1), None))
  {
    SnapshotRoundTrip([e]);
    assert [e][..0] == [];
    assert RetentionOf([e], now - opts.retention) == [];
    assert Gathered(opts, io) == Ok(LoadResult([e], LoadStats(1, 1), Some(BuildOf([e]))));
    StaleQuery(e);
  }

  /** A level query through the index of one entry, over no entries,
      returns that entry. */
  lemma StaleQuery(e: LogEntry)
    requires e.level != ""
    ensures QueryFiltered([], QueryOptions(Empty.(level := e.level), true, 0, Some(BuildOf([e])))) == [e]
  {
    var f := Empty.(level := e.level);
    StaleCandidates(e);
    assert MatchesAll(e, f) && AndF(f)(e);
    assert Select([e], AndF(f)) == [e];
  }

  /** The index of one entry offers that entry for its own level. */
  lemma StaleCandidates(e: LogEntry)
    requires e.level != ""
    ensures Candidates([], Some(BuildOf([e])), Empty.(level := e.level)) == [e]
  {
    GroupBucket([e], LevelKey, ToUpper(e.level));
    assert [e][..0] == [];
    assert Bucket([e], LevelKey, ToUpper(e.level)) == [e];
  }

  // ---------------------------------------------------------------------
  // Ingesting

  /** `IngestEntries`: persist the new entries, then append them; on a
      write error the existing entries come back unchanged. */
  method IngestEntries(existing: seq<LogEntry>, entries: seq<LogEntry>, storePath: string, shardDir: string,
                       storeHeaderText: string, perform: Write -> Option<string>)
    returns (combined: seq<LogEntry>, stats: IngestStats, err: Option<string>, writes: seq<Write>)
    ensures stats == IngestStats(|entries|)
    ensures err == FirstFailure(PersistWrites(storePath, shardDir, storeHeaderText, entries), perform)
    ensures writes == Attempted(PersistWrites(storePath, shardDir, storeHeaderText, entries), perform)
    ensures combined == if err.None? then existing + entries else existing
  {
    stats := IngestStats(|entries|);
    err, writes := Persist(storePath, shardDir, storeHeaderText, entries, perform);
    if err.Some? {
      return existing, stats, err, writes;
    }
    combined := existing + entries;
  }

  /** When every write succeeds, all of them are made and no error is
      reported, so the new entries are appended. */
  lemma IngestAllWritten(existing: seq<LogEntry>, entries: seq<LogEntry>, storePath: string, shardDir: string,
                         storeHeaderText: string, perform: Write -> Option<string>)
    requires forall w :: w in PersistWrites(storePath, shardDir, storeHeaderText, entries) ==> perform(w).None?
    ensures FirstFailure(PersistWrites(storePath, shardDir, storeHeaderText, entries), perform).None?
    ensures Attempted(PersistWrites(storePath, shardDir, storeHeaderText, entries), perform)
         == PersistWrites(storePath, shardDir, storeHeaderText, entries)
  {
    AttemptedShape(PersistWrites(storePath, shardDir, storeHeaderText, entries), perform);
  }
}
