# log-pipeline core, modelled in Dafny

This project models the core of the log pipeline:

- **Query DSL** (`internal/query/query.go`). A query string is tokenised and cut into `OR` groups. Each group is parsed into AND-ed clauses: `level=`, `level in (..)`, `msg~`, `since=`, `before=`, `after=`. The resulting filters are merged with the command-line filters and matched against log entries.
- **In-memory index** (`internal/index/index.go`). It buckets entries by upper-cased level and by hour. It is turned into snapshot positions and back again. Filtering through it narrows the candidates and then re-checks every filter.
- **Ingestion** (`internal/ingest/ingest.go`). Reads plain, JSON and logfmt lines. Blank lines are skipped. In auto mode the format is fixed by the first non-blank line. This includes the logfmt field scanner.
- **Engine** (`internal/engine/engine.go`). Loads entries from a snapshot, a JSONL store, shard files or a log file. Persists new entries to the store and the shards, applies retention, answers queries with a limit and metrics, and ingests new entries.
- **Day shards** (`internal/shard/shard.go`). Shard file names, grouping entries by day, the days of a time range, and sorting by time.
- **CLI helpers** (`cmd/main.go`). Thousands separators, the query plan text, snapshot sources, output-format parsing, config overrides and the store header.

Instants are whole seconds since the epoch. An hour bucket is `ts / 3600` and a day is `ts / 86400`. Both are Euclidean divisions, like Go's `Truncate` on UTC times. Go's zero `time.Time` becomes `None`. A time bound that a query parses to the zero instant (`0001-01-01T00:00:00Z`) is `None` too, since the code tests bounds with `IsZero` (`query.go:144-147`).

Several things are parameters rather than code:

- Calendar formatting and parsing: a `Calendar` or `Printer` with the laws the code relies on.
- JSON decoding and the clock.
- File I/O: `open`, `loadSnapshot`, `perform` for writes.

Each Go loop becomes a method proved equal to a specification function, and lemmas state the promised properties of that function. The in-place sort works on an `array`.

In these places the model follows the code:

- Merging two AND filters that both carry a `level in` list is an error (`query.go:78-83`). The lists are not concatenated.
- A disjunctive *base* filter is carried through a merge unchanged (`query.go:77`). It is not distributed. Only a disjunctive *extra* is distributed.
- A trailing `key=` in logfmt stores `key` with an empty value, and a bare `=` stores the empty key (`ingest.go:216-219`).

## Model

| member | source | states |
|---|---|---|
| Query.EmptyMatchesAll | internal/query/query.go:116-154 | a filter with nothing set is the empty filter and lets every entry through |
| Query.MatchesOr | internal/query/query.go:120-128 | a filter with branches matches exactly when one branch matches; its own AND fields play no part |
| Query.BuildFilters | internal/query/query.go:53-59 | the flag filter has no branches, no level list and no upper bound, and matches exactly the entries passing the level, since and search checks |
| Query.Later | internal/query/query.go:99-105 | the merged lower bound is unset only when both are, is one of the two, and is no earlier than either |
| Query.Earlier | internal/query/query.go:106-112 | the merged upper bound is unset only when both are, is one of the two, and is no later than either |
| Query.MergeFilters | internal/query/query.go:61-114 | the merge method returns the merge function's result: a disjunctive extra is distributed over its branches, otherwise the AND fields are combined and the first conflict fails |
| Query.MergeBranches | internal/query/query.go:66-73 | a successful branch loop over the first n branches yields n merged branches |
| Query.MergeBranchesErrStays | internal/query/query.go:67-71 | once one branch fails to merge, every longer run of branches fails with that same error |
| Query.MergeBranchesValues | internal/query/query.go:67-73 | the i-th merged branch is the base merged with the i-th branch |
| Query.MergeBranchesOk | internal/query/query.go:66-73 | when every branch merges, the loop succeeds |
| Query.MergeAndConflicts | internal/query/query.go:77-98 | an AND merge fails exactly when the extra's level list meets any base level or list, two levels differ ignoring case, an extra level meets a level list, or two searches differ; only the two conflict messages occur |
| Query.MergeWindow | internal/query/query.go:99-112 | a successful AND merge takes the later lower bound and the earlier upper bound, and keeps the base's branches |
| Query.MergeEmptyExtra | internal/query/query.go:61-114 | merging in the empty filter gives the base back |
| Query.MergeOrShape | internal/query/query.go:62-75 | a disjunctive extra merged into a non-empty base succeeds iff every branch merge does, giving as many branches, each the base merged with that branch |
| Query.MergeSound | internal/query/query.go:61-154 | for a conjunctive base, the merged filter matches exactly the entries both filters match |
| Query.MergeCommutes | internal/query/query.go:61-114 | for conjunctive filters, merging in either order succeeds or fails together, and the results match the same entries |
| Query.MergeIntoEmpty | internal/query/query.go:77-113 | a conjunctive extra merged into the empty filter comes back unchanged |
| Query.MergeKeepsBaseOr | internal/query/query.go:77-113 | a disjunctive base goes through an AND merge with its branches unchanged, so the extra's fields take no part in matching |
| QueryParse.Tokenize | internal/query/query.go:258-297 | the tokenising loop computes the character-by-character tokeniser function |
| QueryParse.RunKeepsTokensNonEmpty | internal/query/query.go:279-285 | running the tokeniser from a state without empty tokens never emits one |
| QueryParse.TokensNonEmpty | internal/query/query.go:279-296 | every token produced is non-empty |
| QueryParse.RunQuoted | internal/query/query.go:265-271 | inside quotes every character other than the closing quote is kept literally, spaces included |
| QueryParse.QuotedSegment | internal/query/query.go:263-277 | a quoted segment adds its text without the quotes to the current token |
| QueryParse.QuotedToken | internal/query/query.go:263-296 | `k"v"` with any quote-free v tokenises to the single token k followed by v |
| QueryParse.UnclosedQuote | internal/query/query.go:290-292 | an input that opens a quote and never closes it fails with the unterminated-quote error |
| QueryParse.TokensOfWords | internal/query/query.go:258-297 | non-empty space- and quote-free words joined by single spaces tokenise back to those words |
| QueryParse.SplitOnOR | internal/query/query.go:299-327 | the grouping loop computes the group function |
| QueryParse.GroupsOfClean | internal/query/query.go:303-326 | every group is non-empty and no token in it is `OR` in any letter case |
| QueryParse.GroupsFuse | internal/query/query.go:314-318 | the three tokens `t`, `in`, `v` fuse into the single clause `t in v` |
| QueryParse.GroupsPlain | internal/query/query.go:299-327 | tokens without `OR` or `in` form one group, unchanged and in order |
| QueryParse.TrimQuotes | internal/query/query.go:249-256 | the result is the word itself or the word without its first and last character |
| QueryParse.TrimQuotesStrips | internal/query/query.go:250-253 | a word wrapped in a matching pair of quotes loses exactly that pair |
| QueryParse.TrimQuotesKeeps | internal/query/query.go:249-256 | a word that does not start with a quote is kept as it is |
| QueryParse.SplitToken | internal/query/query.go:217-247 | a successful split always has a non-empty key, and an `in` split a non-empty value |
| QueryParse.SplitTokenEmptyValue | internal/query/query.go:240-246 | `key=` with nothing after the `=` fails with the invalid-token error |
| QueryParse.SplitTokenEmptyKey | internal/query/query.go:240-246 | `=val` with nothing before the `=` fails with the invalid-token error |
| QueryParse.SplitTokenEq | internal/query/query.go:229-246 | `key=value` without `~` splits at the first `=`, and quotes around the value are trimmed |
| QueryParse.SplitTokenMatch | internal/query/query.go:229-233 | `~` takes precedence over `=` |
| QueryParse.SplitTokenIn | internal/query/query.go:218-226 | `key in val` with blank-free sides splits into key, `in` and val |
| QueryParse.SplitTokenNoOperator | internal/query/query.go:237-239 | a token without ` in `, `~` or `=` fails with the missing-operator error |
| QueryParse.ParseInList | internal/query/query.go:329-348 | the list-parsing method computes the list function |
| QueryParse.ListItems | internal/query/query.go:335-343 | the item-collecting loop computes the items function |
| QueryParse.InListClean | internal/query/query.go:329-348 | every item of a parsed list is non-empty and contains no comma |
| QueryParse.InListRoundTrip | internal/query/query.go:329-348 | `(w1,...,wn)` of non-empty words without blanks, commas or a leading quote parses back to exactly those words |
| QueryParse.GroupOf | internal/query/query.go:156-215 | a parsed group is a plain AND filter with no branches |
| QueryParse.ParseAndGroup | internal/query/query.go:156-215 | the clause loop computes the group function |
| QueryParse.FoldErrStays | internal/query/query.go:158-162 | the first token that fails decides the group's error |
| QueryParse.GroupOkIff | internal/query/query.go:156-215 | a group parses exactly when each of its tokens is an acceptable clause |
| QueryParse.ClauseErrors | internal/query/query.go:164-211 | an unknown key, `~` on level, a non-`=` time bound (`<key> supports only '='`) and `in` on message or search each fail, with the source's messages |
| QueryParse.ZeroBoundUnset | internal/query/query.go:192-209 | a `before=` or `after=` that parses to the zero instant leaves the bound unset, so the query is the empty filter and matches every entry |
| QueryParse.CollectErrStays | internal/query/query.go:43-47 | the first group that fails decides the parse error |
| QueryParse.Parse | internal/query/query.go:30-51 | the parse method computes the parse function |
| QueryParse.ParseShape | internal/query/query.go:35-50 | no groups gives the empty filter, one group gives a plain filter, and several give one branch per group; parsing succeeds iff every group does |
| QueryParse.ParseMeaning | internal/query/query.go:30-51 | a parsed query matches an entry exactly when there are no groups or some group's clauses all hold for it |
| QueryRoundTrip.TermClause | internal/query/query.go:156-247 | each well-formed term, rendered as a single token, parses back to its clause |
| QueryRoundTrip.RenderQueryGroups | internal/query/query.go:299-327 | the OR groups of a rendered query are the fused renderings of its groups |
| QueryRoundTrip.GroupOfFused | internal/query/query.go:156-215 | a group of rendered terms parses to the filter those terms denote |
| QueryRoundTrip.ParseRoundTrip | internal/query/query.go:30-51 | parsing the rendering of a well-formed query gives the filter it denotes |
| QueryRoundTrip.CompactListAccepted | internal/query/query.go:329-348 | `level in (A,B)` parses to the level list A, B |
| QueryRoundTrip.SpacedListRejected | internal/query/query.go:279-285 | `level in (A, B)` does not parse, since the blank inside the list ends the token |
| LogIndex.HourBucketBounds | internal/index/index.go:220-222 | an instant lies within its hour bucket, and a later instant never falls in an earlier bucket |
| LogIndex.Build | internal/index/index.go:26-47 | the build loop computes the index function |
| LogIndex.BuildBuckets | internal/index/index.go:32-38 | each bucket holds the entries with that key in input order, and the keys are exactly those of the entries |
| LogIndex.BuildCounts | internal/index/index.go:32-38 | an entry appears in a bucket as often as it appears among the entries with that key |
| LogIndex.BuildHours | internal/index/index.go:40-44 | the hour list is strictly increasing and holds exactly the hour-bucket keys |
| LogIndex.BuildSizes | internal/index/index.go:32-44 | the bucket sizes of each kind add up to the number of entries |
| LogIndex.ToSnapshotIndex | internal/index/index.go:50-73 | the position loop computes the snapshot function, which depends only on the entries |
| LogIndex.SnapshotPositions | internal/index/index.go:57-64 | each position list is strictly increasing and holds exactly the positions of the entries with that key |
| LogIndex.RehydrateAll | internal/index/index.go:83-96 | the re-hydrating loop computes the re-hydrate function on every key |
| LogIndex.FromSnapshotIndex | internal/index/index.go:76-99 | re-hydration computes the rebuild function |
| LogIndex.RehydrateLenient | internal/index/index.go:84-87 | never more entries than positions; all positions in range give the entries at those positions in order, and all out of range give none |
| LogIndex.SnapshotRoundTrip | internal/index/index.go:26-99 | re-hydrating the snapshot of the entries over the same entries gives back the built index |
| LogIndex.CollectFromHourBuckets | internal/index/index.go:204-218 | the collecting loop computes the collect function |
| LogIndex.CollectMembers | internal/index/index.go:204-218 | the collected entries are exactly those in the cut-off hour or later, so every entry at or after the cut-off is among them |
| LogIndex.AppendUnseen | internal/index/index.go:136-143 | the de-duplicating loop keeps the first copy of each entry, in order |
| LogIndex.LevelUnion | internal/index/index.go:153-167 | the union loop computes the level-union function |
| LogIndex.LevelUnionMembers | internal/index/index.go:153-167 | the union holds exactly the entries whose level matches some listed level, ignoring case |
| LogIndex.PassesAll | internal/index/index.go:174-198 | the re-check passes exactly when every AND field of the filter holds |
| LogIndex.FilterWithFilters | internal/index/index.go:130-202 | the filtering method computes the filtered function |
| LogIndex.Filter | internal/index/index.go:102-127 | filtering by flags is filtering with the flag filter |
| LogIndex.CandidatesCover | internal/index/index.go:148-171 | narrowing through the index never loses an entry that passes the filter, and adds nothing outside the entries |
| LogIndex.FilteredMembers | internal/index/index.go:130-202 | with or without a consistent index, the result holds exactly the entries that match |
| LogIndex.FilteredNoDups | internal/index/index.go:131-145 | without repeated entries in the input, the result has none |
| LogIndex.FilteredPermutesScan | internal/index/index.go:130-202 | with a consistent index or none, on repeat-free entries, the result is a permutation of the in-order scan |
| LogIndex.FilteredSubMultiset | internal/index/index.go:130-202 | the result never holds an entry more often than the input does |
| LogIndex.FilteredLength | internal/index/index.go:130-202 | the result is never longer than the input |
| LogIndex.ScanPath | internal/index/index.go:148-201 | without an index, an AND filter returns the matching entries in input order |
| LogIndex.LevelPath | internal/index/index.go:150-152 | a single-level filter through the index returns the matching entries in input order |
| LogIndex.OrCollapsesRepeats | internal/index/index.go:131-145 | a disjunctive filter drops repeated entries that the scan keeps |
| LogIndex.KeyCollisionDropsEntry | internal/index/index.go:131-145 | with the source's text key, two distinct matching entries whose level and message join, around the separator, to the same text collapse to one under `search=C OR level=X`, though the scan keeps both |
| LogIndex.CombineAsWrittenAgrees | internal/index/index.go:133-144 | when timestamps print injectively and without the separator, and no level holds it, de-duplicating on the text key is de-duplicating on the entry |
| Engine.Persist | internal/engine/engine.go:134-149 | the write loop attempts the planned writes up to the first failure and returns that failure |
| Engine.AttemptedShape | internal/engine/engine.go:134-149 | the attempted writes are a prefix of the plan; there is no error iff every write is made and succeeds, and otherwise the last attempt is the one that failed |
| Engine.PersistShape | internal/engine/engine.go:134-149 | a header is written first and only with a store path and header text; the store gets the new entries; the shards come last |
| Engine.ApplyRetention | internal/engine/engine.go:224-233 | the retention loop computes the retention function |
| Engine.RetentionMeaning | internal/engine/engine.go:224-233 | retention keeps exactly the entries at or after the cut-off, works piecewise over concatenation, and equals filtering with that lower bound |
| Engine.LoadSnapshot | internal/engine/engine.go:78-100 | loading a snapshot computes the snapshot-load function |
| Engine.LoadFile | internal/engine/engine.go:117-150 | loading a file computes the file-load function |
| Engine.LoadEntries | internal/engine/engine.go:73-162 | loading computes the load function, which drops the index once retention has run |
| Engine.LoadSnapshotFirst | internal/engine/engine.go:78-100 | with a snapshot path the load does not depend on the load path, shard paths or file, and writes nothing |
| Engine.LoadPathSecond | internal/engine/engine.go:101-108 | without a snapshot, a load path decides the load whatever the shards and file, and nothing is written |
| Engine.ShardPathsThird | internal/engine/engine.go:109-116 | without a snapshot or load path, shard paths decide the load whatever the file, and nothing is written |
| Engine.LoadVersionMismatch | internal/engine/engine.go:83-85 | a snapshot of another version fails the load |
| Engine.LoadIndexSource | internal/engine/engine.go:78-100 | an index is returned only from a snapshot with no replay and no retention, re-hydrated over that snapshot's entries |
| Engine.LoadSnapshotIndex | internal/engine/engine.go:78-90 | conversely, a current-version snapshot with no replay and no retention loads its entries, both counts equal to their number, and the index re-hydrated over them |
| Engine.LoadSnapshotIndexAsWritten | internal/engine/engine.go:78-90 | as written, such a snapshot's index comes back whatever the retention, beside the entries retention kept |
| Engine.LoadCorrectionOnlyIndex | internal/engine/engine.go:152-161 | the corrected load agrees with the load as written on errors, entries and counts, and differs only by dropping the index when retention is on |
| Engine.LoadIndexConsistent | internal/engine/engine.go:152-161 | the index returned always describes the entries returned |
| Engine.LoadFileOrder | internal/engine/engine.go:117-161 | from a log file whose writes all succeed, the entries are the replayed ones followed by the parsed ones, each part cut at the retention cut-off when retention is set; only the parsed entries are counted, and no index is returned |
| Engine.LoadWriteFails | internal/engine/engine.go:134-149 | from a log file, the first failed store or shard write fails the whole load with its error |
| Engine.RetentionSplits | internal/engine/engine.go:152-155 | retention over replayed-then-parsed entries is retention over each part, in the same order |
| Engine.QueryEntries | internal/engine/engine.go:165-200 | the result is the limited filtered entries, and the metrics count read, ingested, matched and filtered-out entries |
| Engine.LimitPrefix | internal/engine/engine.go:184-187 | the limited result is a prefix, of length min(limit, n) for a positive limit, and everything otherwise |
| Engine.QueryMeaning | internal/engine/engine.go:168-182 | with a consistent index or none, the query keeps exactly the matching entries, and the filtered-out count lies between 0 and the number of entries |
| Engine.QueryIndexPermutes | internal/engine/engine.go:168-182 | with a consistent index, on repeat-free entries, a query through the index returns a permutation of the scan, of the same length |
| Engine.QueryScanOrder | internal/engine/engine.go:174-187 | without the index, the result is a prefix of the in-order scan |
| Engine.StaleIndexAfterRetention | internal/engine/engine.go:152-161 | the load as written keeps a snapshot's index after retention has emptied the entries, so a level query returns an expired entry; the corrected load returns no index |
| Engine.StaleQuery | internal/engine/engine.go:168-173 | a level query through a one-entry index over no entries returns that entry |
| Engine.IngestEntries | internal/engine/engine.go:203-222 | ingesting appends the new entries exactly when every write succeeds, and otherwise keeps the old ones and reports the first write error |
| Engine.IngestAllWritten | internal/engine/engine.go:203-222 | when every write succeeds, all are made and the entries are appended |
| Ingest.ParseLineRoundTrip | internal/ingest/ingest.go:89-109 | a timestamp, a level and a non-empty message of words parse back to that entry |
| Ingest.ParseLineOfFields | internal/ingest/ingest.go:91-108 | a parsed plain line's time, level and message are its first field, its second field and the rest joined by spaces |
| Ingest.ParseLineTooShort | internal/ingest/ingest.go:91-94 | a line of fewer than three fields, the empty line included, is invalid |
| Ingest.ParseLineBadTime | internal/ingest/ingest.go:99-102 | an unparsable first field fails the line |
| Ingest.DetectFormat | internal/ingest/ingest.go:111-120 | detection always settles on JSON, logfmt or plain |
| Ingest.DetectTrimmed | internal/ingest/ingest.go:111-120 | detection ignores surrounding blanks |
| Ingest.ParseFormatDispatch | internal/ingest/ingest.go:82-83 | auto parses with the detected format, which is always a concrete one |
| Ingest.UnknownFormatFails | internal/ingest/ingest.go:85-86 | a format outside the four fails with the unknown-format error |
| Ingest.StoreLast | internal/ingest/ingest.go:241-243 | a key is stored exactly when some pair has it, with the value of its last pair, so a later duplicate overwrites |
| Ingest.ScanTo | internal/ingest/ingest.go:199-212 | the scanning loop stops at the first stop character at or after the start, or at the end |
| Ingest.ParseLogfmtFields | internal/ingest/ingest.go:194-246 | the scanning method computes the logfmt field function |
| Ingest.LogfmtRoundTrip | internal/ingest/ingest.go:194-246 | rendering well-formed pairs and scanning them back gives the same pairs in order |
| Ingest.LogfmtFieldsOf | internal/ingest/ingest.go:194-246 | for rendered well-formed pairs, a key is a field exactly when some pair has it, with its last value |
| Ingest.SkipBareToken | internal/ingest/ingest.go:209-213 | a token without `=` is skipped |
| Ingest.UnquotedPair | internal/ingest/ingest.go:233-243 | a bare value runs to the next space, and the pair is kept unless its key is empty |
| Ingest.TrailingKey | internal/ingest/ingest.go:216-219 | a trailing `key=` stores the key with an empty value, and a bare trailing `=` stores the empty key |
| Ingest.EmptyKeyOnlyAtEnd | internal/ingest/ingest.go:216-243 | a pair with an empty key can only be the last pair, and then its value is empty |
| Ingest.FirstNonEmpty | internal/ingest/ingest.go:174-181 | the result is non-empty iff some listed key has a non-empty value, and then it is the first such value |
| Ingest.FirstStringFromStringMap | internal/ingest/ingest.go:174-181 | the lookup loop computes the first-non-empty function |
| Ingest.FirstNonEmptyAt | internal/ingest/ingest.go:174-181 | when the listed keys before position i are empty or missing, the value at i decides |
| Ingest.ParseLogfmtLine | internal/ingest/ingest.go:148-172 | the logfmt line method computes the logfmt entry function |
| Ingest.LogfmtEntryNeeds | internal/ingest/ingest.go:150-171 | a logfmt line parses iff it has a time, a level and a message and the time parses; level and message are the first non-empty of their keys |
| Ingest.LogfmtLineRoundTrip | internal/ingest/ingest.go:148-172 | `ts=… level=… msg=…` with quote-free values parses back to that entry |
| Ingest.LogfmtLineMissingLevel | internal/ingest/ingest.go:158-160 | a logfmt line without a level fails |
| Ingest.ReadLogReaderWithFormat | internal/ingest/ingest.go:42-72 | the reading loop computes the read function |
| Ingest.ReadLogFileWithFormat | internal/ingest/ingest.go:31-39 | an open error is returned as it is; otherwise the result is reading the file's lines |
| Ingest.ReadMembers | internal/ingest/ingest.go:48-66 | the entries read are exactly the successful parses of the non-blank lines in the settled format |
| Ingest.ReadAppend | internal/ingest/ingest.go:48-66 | for a fixed format, reading two runs of lines is reading the first, then the second |
| Ingest.ReadAutoFixed | internal/ingest/ingest.go:53-58 | in auto mode the first non-blank line fixes a concrete format for every line |
| Shard.DayShardPath | internal/shard/shard.go:13-16 | the path ends in the day's name followed by `.jsonl` |
| Shard.ParseShardDate | internal/shard/shard.go:77-88 | a date is found iff the base name ends in `.jsonl` and its stem parses, and it is a midnight |
| Shard.ShardDateRoundTrip | internal/shard/shard.go:77-88 | parsing the date of a day's shard path gives that day's midnight |
| Shard.ShardDateNeedsSuffix | internal/shard/shard.go:79-81 | a name without `.jsonl` gives no date |
| Shard.GroupByDay | internal/shard/shard.go:18-25 | the grouping loop computes grouping by UTC day name |
| Shard.GroupByDayBuckets | internal/shard/shard.go:18-25 | each day's bucket holds the entries of that day in input order, and a day has a bucket iff some entry falls on it |
| Shard.GroupByDaySizes | internal/shard/shard.go:18-25 | when every entry's day is listed once, the bucket sizes add up to the number of entries |
| Shard.Span | internal/shard/shard.go:28-42 | the day span is unset iff both bounds are; it is ordered, covers each bound, and its ends are the given bounds |
| Shard.DayNames | internal/shard/shard.go:44-51 | one name per day from first to last, in order |
| Shard.DaysInRange | internal/shard/shard.go:27-52 | the day loop computes the days function |
| Shard.DaysNoBounds | internal/shard/shard.go:28-30 | no bounds gives no days |
| Shard.DaysOneBound | internal/shard/shard.go:32-39 | a single bound gives just its own day |
| Shard.DaysSwapped | internal/shard/shard.go:40-42 | the order of the two bounds does not matter |
| Shard.DaysCover | internal/shard/shard.go:44-51 | between two bounds the days run one by one from the first bound's day to the last's, so every instant in between has its day named |
| Shard.DaysDistinct | internal/shard/shard.go:47-50 | no day is named twice |
| Shard.ShardPathsForRange | internal/shard/shard.go:60-70 | the path loop gives one shard path per day of the range |
| Shard.PathsAreDayShards | internal/shard/shard.go:60-70 | the i-th path is the shard path of the i-th day of the range, and its date parses back to that day |
| Shard.SortEntries | internal/shard/shard.go:54-58 | the array ends sorted by time and is a permutation of what it held |
| Shard.SortedTimesUnique | internal/shard/shard.go:54-58 | any two time-sorted arrangements of the same entries agree position by position on their timestamps |
| Cli.FormatCount | cmd/main.go:601-617 | the grouping loop computes the thousands-separator function |
| Cli.FormatCountMeaning | cmd/main.go:601-617 | below 1000 the digits are unchanged; removing the commas gives the digits; from 1000 on, a comma stands exactly at every fourth place from the end |
| Cli.Access | cmd/main.go:450-463 | the access step is a full scan exactly without the index or without a level, level list or lower bound; otherwise the level, then the list, then the hour index is used |
| Cli.BuildQueryPlan | cmd/main.go:449-486 | the plan is the text of the plan steps |
| Cli.PlanOrder | cmd/main.go:449-486 | the access step comes first and the other steps follow in a fixed order |
| Cli.PlanParts | cmd/main.go:465-483 | a step is in the plan exactly when its filter or query is set |
| Cli.PlanFilters | cmd/main.go:465-480 | a level step appears only without the index; each other filter step appears exactly when its filter is set, with its value |
| Cli.PlanQueryLast | cmd/main.go:481-483 | the DSL step is present, and then last, exactly when a query string was given |
| Cli.SnapshotSources | cmd/main.go:619-631 | the sources are the non-empty ones among snapshot, load path and file, in that order |
| Cli.SnapshotSourcesMembers | cmd/main.go:619-631 | there are at most three sources, and a name is one exactly when it is non-empty and one of the three given |
| Cli.ParseFormat | cmd/main.go:342-355 | a successful parse never gives the unknown format, and a failure carries the format error |
| Cli.ParseFormatNames | cmd/main.go:342-355 | each format's name parses to that format, and the empty text to plain |
| Cli.ParseFormatNormalised | cmd/main.go:343 | lower-casing and trimming first does not change the outcome |
| Cli.ParseFormatPadded | cmd/main.go:343-351 | a format name surrounded by white space, Unicode spaces such as U+00A0 included, parses to that format |
| Cli.RunHeaderText | cmd/main.go:552-574 | the header is longer than its border line |
| Cli.HeaderText | cmd/main.go:539-544 | the header text is empty exactly without a store or without the header flag, and is otherwise the run header for the store |
| CliConfig.Override | cmd/main.go:358-446 | a configured value replaces the current one only when its flag was not set on the command line |
| CliConfig.OverrideDuration | cmd/main.go:385-389 | the poll interval changes only when the flag is unset and the configured text parses |
| CliConfig.OverrideIdempotent | cmd/main.go:358-446 | overriding twice is overriding once |
| CliConfig.OverrideDurationIdempotent | cmd/main.go:385-389 | overriding the poll interval twice is overriding it once |
| CliConfig.ApplyConfig | cmd/main.go:357-447 | every option is the per-field override of the configured value over the current one |
| CliConfig.SetFlagsWin | cmd/main.go:357-447 | when every flag was set on the command line, the config changes nothing |
| CliConfig.EmptyConfigKeeps | cmd/main.go:357-447 | an empty config changes nothing |

## Left out

- AllShardPaths (`internal/shard/shard.go:72-75`) is a directory glob, which is file-system I/O.
- Path cleaning: `filepath.Join` is modelled as joining with one `/` after trailing slashes are stripped. `filepath.Clean`'s other rewrites are not modelled.
- Time formatting and parsing (RFC 3339, `2006-01-02`, `%q` quoting) are parameters that carry only the laws the code relies on. No calendar arithmetic is modelled.
- The relative order of entries with equal timestamps after sorting. `sort.Slice` (`internal/shard/shard.go:54-58`) is not stable and leaves that order unspecified. Shard.SortEntries states what `sort.Slice` promises: the result is sorted by time and is a permutation of the input. SortedTimesUnique shows that any two such results agree on their timestamps.
- CliConfig.ApplyConfig: the source writes through flag pointers. The model returns the updated options as a new record, so aliasing between flags is not captured.
- CliConfig.ApplyConfig: idempotence is stated per field (OverrideIdempotent, OverrideDurationIdempotent), not for the whole record.
- The current time, the count of existing store entries and JSON decoding are parameters.
- `main`, `runTail`, `printPlan`, `printMetrics`, `printRunHeader`: console output and control flow only.
- TailLogFile (following a growing file) is not modelled: it needs a clock and blocking reads.
- `parseJSONLine` is an abstract parser parameter. Its only modelled obligation is being selected by format.
- Store, snapshot and config file reading and writing are parameters (`loadSnapshot`, `loadMany`, `perform`, `open`). The server in `internal/server` is not part of this model.
- The duration and rate fields of the query metrics are floating point and are not modelled. The count fields are.
- Case-insensitive comparison (`strings.EqualFold`, `ToUpper`, `ToLower`) is modelled for ASCII letters only.
- LogIndex.AppendUnseen, LogIndex.LevelUnion, LogIndex.OrCollapsesRepeats: these de-duplicate on the entry value. The source de-duplicates on the text `instant|level|message` (`internal/index/index.go:137`, `:159`). That text also carries the zone offset, and it collides when a level or message holds `|`. LogIndex.CombineAsWritten models the text key; the Findings table gives the colliding input, and LogIndex.CombineAsWrittenAgrees states when both keys agree.
- LogIndex.FilteredPermutesScan: for the index path the result is stated as a permutation of the scan, not as a particular order, because the index path visits hour or level buckets first.
- QueryRoundTrip.SpacedListRejected states only that parsing fails, not which error message is produced.
- Cli.RunHeaderText states only a length bound. The banner's exact layout is fixed text.

## Findings

| source | as written | input that shows it | evidently intended | confidence | as-written member | corrected member |
|---|---|---|---|---|---|---|
| internal/engine/engine.go:152-161 | after retention trims the entries loaded from a snapshot, the snapshot's index is still returned with them, and `cmd/main.go:203-208` queries through that index | a snapshot holding one entry older than now minus the retention, with retention > 0 and no replay: no entries are loaded, but a query for that entry's level through the kept index returns it, and the filtered-out count is -1 | once retention has changed the entries, drop the index (or rebuild it) so that it always describes the entries returned | not executed | Engine.StaleIndexAfterRetention | Engine.LoadIndexConsistent |
| internal/index/index.go:137 | a disjunctive filter de-duplicates on the timestamp, level and message joined with a vertical bar, a text that two different entries can share | two entries at the same instant, one with level `A`, bar, `B` and message `C`, the other with level `A` and message `B`, bar, `C`, under the query `search=C OR level=X`: both match, but only the first is returned | de-duplicate on the entry itself, so that every matching entry is returned once | medium, not executed | LogIndex.KeyCollisionDropsEntry | LogIndex.FilteredMembers |
