/** How a configuration file fills in the options of a run that were not
    given on the command line. */
module CliConfig {
  import opened Types

  /** The values a configuration file may give; `None` where it is silent. */
  datatype Config = Config(
    file: Option<string>, level: Option<string>, since: Option<string>,
    search: Option<string>, json: Option<bool>, limit: Option<int>,
    output: Option<string>, tail: Option<bool>, tailFromStart: Option<bool>,
    tailPoll: Option<string>, format: Option<string>, store: Option<string>,
    load: Option<string>, index: Option<bool>, quiet: Option<bool>,
    storeHeader: Option<bool>, query: Option<string>, explain: Option<bool>,
    replay: Option<bool>, snapshot: Option<string>, snapshotLoad: Option<string>,
    retention: Option<string>, metrics: Option<bool>, metricsFile: Option<string>,
    serve: Option<bool>, port: Option<int>, shardDir: Option<string>,
    shardRead: Option<bool>, apiKey: Option<string>)

  const EmptyConfig := Config(None, None, None, None, None, None, None, None, None, None,
                               None, None, None, None, None, None, None, None, None, None,
                               None, None, None, None, None, None, None, None, None)

  /** The value an option ends with: the configured one when the flag was
      not given on the command line and the file has a value, otherwise
      the current one. */
  function Override<T>(setFlags: set<string>, flag: string, configured: Option<T>, current: T): (r: T)
    ensures flag in setFlags ==> r == current
    ensures configured.None? ==> r == current
    ensures flag !in setFlags && configured.Some? ==> r == configured.value
  {
    if flag !in setFlags && configured.Some? then configured.value else current
  }

  /** As `Override` for the polling interval, which is kept as it is when
      the configured text is not a valid duration. */
  function OverrideDuration(setFlags: set<string>, configured: Option<string>,
                            parseDuration: string -> Option<int>, current: int): (r: int)
    ensures "tail-poll" in setFlags || configured.None? ==> r == current
    ensures configured.Some? && parseDuration(configured.value).None? ==> r == current
    ensures "tail-poll" !in setFlags && configured.Some? && parseDuration(configured.value).Some?
            ==> r == parseDuration(configured.value).value
  {
    if "tail-poll" !in setFlags && configured.Some? && parseDuration(configured.value).Some?
    then parseDuration(configured.value).value
    else current
  }

  /** Applying a configuration a second time changes nothing more. */
  lemma OverrideIdempotent<T>(setFlags: set<string>, flag: string, configured: Option<T>, current: T)
    ensures Override(setFlags, flag, configured, Override(setFlags, flag, configured, current))
         == Override(setFlags, flag, configured, current)
  {
  }

  lemma OverrideDurationIdempotent(setFlags: set<string>, configured: Option<string>,
                                   parseDuration: string -> Option<int>, current: int)
    ensures OverrideDuration(setFlags, configured, parseDuration,
                             OverrideDuration(setFlags, configured, parseDuration, current))
         == OverrideDuration(setFlags, configured, parseDuration, current)
  {
  }

  /** The option values of a run: the variables `applyConfig` writes
      through; `tailPoll` is a duration in nanoseconds. */
  datatype Options = Options(
    file: string,
    level: string,
    since: string,
    search: string,
    jsonOut: bool,
    limit: int,
    output: string,
    tail: bool,
    tailFromStart: bool,
    tailPoll: int,
    format: string,
    storePath: string,
    loadPath: string,
    useIndex: bool,
    quiet: bool,
    storeHeader: bool,
    queryStr: string,
    explain: bool,
    replay: bool,
    snapshot: string,
    snapshotLoad: string,
    retention: string,
    metricsFlag: bool,
    metricsFile: string,
    serve: bool,
    port: int,
    shardDir: string,
    shardRead: bool,
    apiKey: string)

  /** The names of every flag a configuration file can fill in. */
  const FlagNames: set<string> := {"file", "level", "since", "search", "json", "limit", "output", "tail", "tail-from-start", "tail-poll", "format", "store", "load", "index", "quiet", "store-header", "query", "explain", "replay", "snapshot", "snapshot-load", "retention", "metrics", "metrics-file", "serve", "port", "shard-dir", "shard-read", "api-key"}

  /** `applyConfig`: every option whose flag was not given on the command
      line takes the configuration's value, where it has one; the writes
      through the flag pointers are the fields of the returned options. */
  function ApplyConfig(cfg: Config, setFlags: set<string>, parseDuration: string -> Option<int>, o: Options): (r: Options)
    ensures r.file == Override(setFlags, "file", cfg.file, o.file)
    ensures r.level == Override(setFlags, "level", cfg.level, o.level)
    ensures r.since == Override(setFlags, "since", cfg.since, o.since)
    ensures r.search == Override(setFlags, "search", cfg.search, o.search)
    ensures r.jsonOut == Override(setFlags, "json", cfg.json, o.jsonOut)
    ensures r.limit == Override(setFlags, "limit", cfg.limit, o.limit)
    ensures r.output == Override(setFlags, "output", cfg.output, o.output)
    ensures r.tail == Override(setFlags, "tail", cfg.tail, o.tail)
    ensures r.tailFromStart == Override(setFlags, "tail-from-start", cfg.tailFromStart, o.tailFromStart)
    ensures r.tailPoll == OverrideDuration(setFlags, cfg.tailPoll, parseDuration, o.tailPoll)
    ensures r.format == Override(setFlags, "format", cfg.format, o.format)
    ensures r.storePath == Override(setFlags, "store", cfg.store, o.storePath)
    ensures r.loadPath == Override(setFlags, "load", cfg.load, o.loadPath)
    ensures r.useIndex == Override(setFlags, "index", cfg.index, o.useIndex)
    ensures r.quiet == Override(setFlags, "quiet", cfg.quiet, o.quiet)
    ensures r.storeHeader == Override(setFlags, "store-header", cfg.storeHeader, o.storeHeader)
    ensures r.queryStr == Override(setFlags, "query", cfg.query, o.queryStr)
    ensures r.explain == Override(setFlags, "explain", cfg.explain, o.explain)
    ensures r.replay == Override(setFlags, "replay", cfg.replay, o.replay)
    ensures r.snapshot == Override(setFlags, "snapshot", cfg.snapshot, o.snapshot)
    ensures r.snapshotLoad == Override(setFlags, "snapshot-load", cfg.snapshotLoad, o.snapshotLoad)
    ensures r.retention == Override(setFlags, "retention", cfg.retention, o.retention)
    ensures r.metricsFlag == Override(setFlags, "metrics", cfg.metrics, o.metricsFlag)
    ensures r.metricsFile == Override(setFlags, "metrics-file", cfg.metricsFile, o.metricsFile)
    ensures r.serve == Override(setFlags, "serve", cfg.serve, o.serve)
    ensures r.port == Override(setFlags, "port", cfg.port, o.port)
    ensures r.shardDir == Override(setFlags, "shard-dir", cfg.shardDir, o.shardDir)
    ensures r.shardRead == Override(setFlags, "shard-read", cfg.shardRead, o.shardRead)
    ensures r.apiKey == Override(setFlags, "api-key", cfg.apiKey, o.apiKey)
  {
    Options(
      Override(setFlags, "file", cfg.file, o.file),
      Override(setFlags, "level", cfg.level, o.level),
      Override(setFlags, "since", cfg.since, o.since),
      Override(setFlags, "search", cfg.search, o.search),
      Override(setFlags, "json", cfg.json, o.jsonOut),
      Override(setFlags, "limit", cfg.limit, o.limit),
      Override(setFlags, "output", cfg.output, o.output),
      Override(setFlags, "tail", cfg.tail, o.tail),
      Override(setFlags, "tail-from-start", cfg.tailFromStart, o.tailFromStart),
      OverrideDuration(setFlags, cfg.tailPoll, parseDuration, o.tailPoll),
      Override(setFlags, "format", cfg.format, o.format),
      Override(setFlags, "store", cfg.store, o.storePath),
      Override(setFlags, "load", cfg.load, o.loadPath),
      Override(setFlags, "index", cfg.index, o.useIndex),
      Override(setFlags, "quiet", cfg.quiet, o.quiet),
      Override(setFlags, "store-header", cfg.storeHeader, o.storeHeader),
      Override(setFlags, "query", cfg.query, o.queryStr),
      Override(setFlags, "explain", cfg.explain, o.explain),
      Override(setFlags, "replay", cfg.replay, o.replay),
      Override(setFlags, "snapshot", cfg.snapshot, o.snapshot),
      Override(setFlags, "snapshot-load", cfg.snapshotLoad, o.snapshotLoad),
      Override(setFlags, "retention", cfg.retention, o.retention),
      Override(setFlags, "metrics", cfg.metrics, o.metricsFlag),
      Override(setFlags, "metrics-file", cfg.metricsFile, o.metricsFile),
      Override(setFlags, "serve", cfg.serve, o.serve),
      Override(setFlags, "port", cfg.port, o.port),
      Override(setFlags, "shard-dir", cfg.shardDir, o.shardDir),
      Override(setFlags, "shard-read", cfg.shardRead, o.shardRead),
      Override(setFlags, "api-key", cfg.apiKey, o.apiKey))
  }

  /** Options whose flags were all given on the command line are left
      exactly as they are. */
  lemma SetFlagsWin(cfg: Config, setFlags: set<string>, parseDuration: string -> Option<int>, o: Options)
    requires FlagNames <= setFlags
    ensures ApplyConfig(cfg, setFlags, parseDuration, o) == o
  {
  }

  /** A configuration file without values leaves every option as it is. */
  lemma EmptyConfigKeeps(setFlags: set<string>, parseDuration: string -> Option<int>, o: Options)
    ensures ApplyConfig(EmptyConfig, setFlags, parseDuration, o) == o
  {
  }
}
