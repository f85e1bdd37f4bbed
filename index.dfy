/** The level/hour index over a list of entries: building it, converting
    it to and from the position-list form a snapshot stores, and filtering
    with its help. Hour keys are hour numbers (`ts / 3600`); the source's
    text keys `2006-01-02T15` order the same way. */
module LogIndex {
  import opened Types
  import opened Text
  import opened Seqs
  import opened Query

  // ---------------------------------------------------------------------
  // Keys and data

  /** The bucket key of an entry's level. */
  function LevelKey(e: LogEntry): string {
    ToUpper(e.level)
  }

  /** `hourBucket`: the UTC hour an instant falls in. */
  function HourBucket(ts: int): int {
    ts / 3600
  }

  function HourOf(e: LogEntry): int {
    HourBucket(e.ts)
  }

  /** An instant lies in its hour, and later instants never fall in an
      earlier hour. */
  lemma HourBucketBounds(ts: int, later: int)
    ensures HourBucket(ts) * 3600 <= ts < HourBucket(ts) * 3600 + 3600
    ensures ts <= later ==> HourBucket(ts) <= HourBucket(later)
  {
  }

  /** `Index`: entries by upper-cased level, entries by hour, and the hour
      keys in order. */
  datatype Index = Index(
    byLevel: map<string, seq<LogEntry>>,
    byHour: map<int, seq<LogEntry>>,
    hours: seq<int>)

  /** `SnapshotIndex`: the same buckets as positions into the entry list. */
  datatype SnapshotIndex = SnapshotIndex(
    byLevel: map<string, seq<int>>,
    byHour: map<int, seq<int>>,
    hours: seq<int>)

  // ---------------------------------------------------------------------
  // Build

  /** The index `Build` makes: every entry appended to the bucket of its
      level key and to the bucket of its hour, and the hour keys sorted. */
  ghost function BuildOf(es: seq<LogEntry>): Index {
    Index(GroupBy(es, LevelKey), GroupBy(es, HourOf), SortedSeq(KeysOf(es, HourOf)))
  }

  method Build(es: seq<LogEntry>) returns (idx: Index)
    ensures idx == BuildOf(es)
  {
    var byLevel: map<string, seq<LogEntry>> := map[];
    var byHour: map<int, seq<LogEntry>> := map[];
    for i := 0 to |es|
      invariant byLevel == GroupBy(es[..i], LevelKey)
      invariant byHour == GroupBy(es[..i], HourOf)
    {
      var e := es[i];
      assert es[..i + 1] == es[..i] + [e];
      GroupBySnoc(es[..i], LevelKey, e);
      GroupBySnoc(es[..i], HourOf, e);
      byLevel := Append(byLevel, ToUpper(e.level), e);
      byHour := Append(byHour, HourBucket(e.ts), e);
    }
    assert es[..|es|] == es;
    assert byHour.Keys == KeysOf(es, HourOf);
    var hours := SortedKeys(byHour.Keys);
    idx := Index(byLevel, byHour, hours);
  }

  /** `m[k] = append(m[k], x)`: a missing key starts an empty list. */
  method Append<K, T>(m: map<K, seq<T>>, k: K, x: T) returns (m': map<K, seq<T>>)
    ensures m' == m[k := BucketOrEmpty(m, k) + [x]]
  {
    m' := m[k := (if k in m then m[k] else []) + [x]];
  }

  /** Each bucket holds exactly the entries with its key, in input order,
      each as often as it occurs in the input; a key is present exactly
      when some entry has it. */
  lemma BuildBuckets(es: seq<LogEntry>)
    ensures forall k :: BucketOrEmpty(BuildOf(es).byLevel, k) == Bucket(es, LevelKey, k)
    ensures forall h :: BucketOrEmpty(BuildOf(es).byHour, h) == Bucket(es, HourOf, h)
    ensures BuildOf(es).byLevel.Keys == KeysOf(es, LevelKey)
    ensures BuildOf(es).byHour.Keys == KeysOf(es, HourOf)
  {
    forall k ensures BucketOrEmpty(BuildOf(es).byLevel, k) == Bucket(es, LevelKey, k) {
      if k !in KeysOf(es, LevelKey) {
        KeyAbsentBucket(es, LevelKey, k);
      }
    }
    forall h ensures BucketOrEmpty(BuildOf(es).byHour, h) == Bucket(es, HourOf, h) {
      if h !in KeysOf(es, HourOf) {
        KeyAbsentBucket(es, HourOf, h);
      }
    }
  }

  /** An entry is counted in the bucket of its own level key as often as it
      occurs, and in no other level bucket; likewise for hours. */
  lemma BuildCounts(es: seq<LogEntry>, x: LogEntry, k: string, h: int)
    ensures multiset(BucketOrEmpty(BuildOf(es).byLevel, k))[x]
         == if LevelKey(x) == k then multiset(es)[x] else 0
    ensures multiset(BucketOrEmpty(BuildOf(es).byHour, h))[x]
         == if HourOf(x) == h then multiset(es)[x] else 0
  {
    BuildBuckets(es);
    BucketCount(es, LevelKey, k);
    BucketCount(es, HourOf, h);
  }

  /** `Hours` is strictly increasing and lists exactly the hour keys. */
  lemma BuildHours(es: seq<LogEntry>)
    ensures StrictlySorted(BuildOf(es).hours)
    ensures Elems(BuildOf(es).hours) == BuildOf(es).byHour.Keys
  {
  }

  lemma SortedNoDups(s: seq<int>)
    requires StrictlySorted(s)
    ensures NoDups(s)
  {
  }

  /** The hour buckets, taken over `Hours`, hold `|es|` entries between
      them; so do the level buckets over any duplicate-free list of level
      keys that covers them. */
  lemma BuildSizes(es: seq<LogEntry>, levelKeys: seq<string>)
    requires NoDups(levelKeys) && BuildOf(es).byLevel.Keys <= Elems(levelKeys)
    ensures SizeSum(BuildOf(es).byHour, BuildOf(es).hours) == |es|
    ensures SizeSum(BuildOf(es).byLevel, levelKeys) == |es|
  {
    HourSizes(es);
    LevelSizes(es, levelKeys);
  }

  lemma HourSizes(es: seq<LogEntry>)
    ensures SizeSum(BuildOf(es).byHour, BuildOf(es).hours) == |es|
  {
    var hours := BuildOf(es).hours;
    SortedNoDups(hours);
    assert forall x :: x in es ==> HourOf(x) in KeysOf(es, HourOf);
    assert forall x :: x in es ==> HourOf(x) in Elems(hours);
    GroupBySizes(es, HourOf, hours);
  }

  lemma LevelSizes(es: seq<LogEntry>, levelKeys: seq<string>)
    requires NoDups(levelKeys) && BuildOf(es).byLevel.Keys <= Elems(levelKeys)
    ensures SizeSum(BuildOf(es).byLevel, levelKeys) == |es|
  {
    assert forall x :: x in es ==> LevelKey(x) in KeysOf(es, LevelKey);
    assert forall x :: x in es ==> LevelKey(x) in Elems(levelKeys);
    GroupBySizes(es, LevelKey, levelKeys);
  }

  // ---------------------------------------------------------------------
  // Snapshot form

  /** The snapshot form `ToSnapshotIndex` computes; it depends on the
      entries alone. */
  ghost function SnapshotOf(es: seq<LogEntry>): SnapshotIndex {
    SnapshotIndex(PositionMap(es, LevelKey), PositionMap(es, HourOf), SortedSeq(KeysOf(es, HourOf)))
  }

  /** `ToSnapshotIndex`: its `idx` argument is never read. */
  method ToSnapshotIndex(idx: Index, es: seq<LogEntry>) returns (si: SnapshotIndex)
    ensures si == SnapshotOf(es)
  {
    var byLevel: map<string, seq<int>> := map[];
    var byHour: map<int, seq<int>> := map[];
    var hourSet: set<int> := {};
    for i := 0 to |es|
      invariant byLevel == PositionMap(es[..i], LevelKey)
      invariant byHour == PositionMap(es[..i], HourOf)
      invariant hourSet == KeysOf(es[..i], HourOf)
    {
      var e := es[i];
      assert es[..i + 1] == es[..i] + [e];
      PositionMapSnoc(es[..i], LevelKey, e);
      PositionMapSnoc(es[..i], HourOf, e);
      byLevel := Append(byLevel, ToUpper(e.level), i);
      var hourKey := HourBucket(e.ts);
      byHour := Append(byHour, hourKey, i);
      hourSet := hourSet + {hourKey};
    }
    assert es[..|es|] == es;
    var hours := SortedKeys(hourSet);
    si := SnapshotIndex(byLevel, byHour, hours);
  }

  /** Every position list is strictly increasing, and the level lists
      partition the positions `0..|es|-1`: position `i` is listed under a
      key exactly when that key is its entry's level key. Likewise for the
      hour lists. */
  lemma SnapshotPositions(es: seq<LogEntry>)
    ensures forall k :: StrictlySorted(PositionsOrEmpty(SnapshotOf(es).byLevel, k))
    ensures forall h :: StrictlySorted(PositionsOrEmpty(SnapshotOf(es).byHour, h))
    ensures forall k, i :: i in PositionsOrEmpty(SnapshotOf(es).byLevel, k) <==>
      0 <= i < |es| && LevelKey(es[i]) == k
    ensures forall h, i :: i in PositionsOrEmpty(SnapshotOf(es).byHour, h) <==>
      0 <= i < |es| && HourOf(es[i]) == h
  {
    forall k ensures PositionsOrEmpty(SnapshotOf(es).byLevel, k) == Positions(es, LevelKey, k) {
      if k !in KeysOf(es, LevelKey) {
        KeyAbsentPositions(es, LevelKey, k);
      }
    }
    forall h ensures PositionsOrEmpty(SnapshotOf(es).byHour, h) == Positions(es, HourOf, h) {
      if h !in KeysOf(es, HourOf) {
        KeyAbsentPositions(es, HourOf, h);
      }
    }
    forall k ensures StrictlySorted(Positions(es, LevelKey, k))
      && forall i :: i in Positions(es, LevelKey, k) <==> 0 <= i < |es| && LevelKey(es[i]) == k
    {
      PositionsSorted(es, LevelKey, k);
      PositionsMembers(es, LevelKey, k);
    }
    forall h ensures StrictlySorted(Positions(es, HourOf, h))
      && forall i :: i in Positions(es, HourOf, h) <==> 0 <= i < |es| && HourOf(es[i]) == h
    {
      PositionsSorted(es, HourOf, h);
      PositionsMembers(es, HourOf, h);
    }
  }

  /** The buckets a snapshot's position lists re-hydrate to: a key whose
      positions are all out of range gets no bucket. */
  function RehydrateMap<K>(m: map<K, seq<int>>, es: seq<LogEntry>): map<K, seq<LogEntry>> {
    map k | k in m && Rehydrate(m[k], es) != [] :: Rehydrate(m[k], es)
  }

  /** What `FromSnapshotIndex` rebuilds; `Hours` is copied verbatim. */
  function FromSnapshotOf(si: SnapshotIndex, es: seq<LogEntry>): Index {
    Index(RehydrateMap(si.byLevel, es), RehydrateMap(si.byHour, es), si.hours)
  }

  lemma NonEmptyHasKey<K>(s: set<K>)
    requires s != {}
    ensures exists k :: k in s
  {
    assert (forall k :: k !in s) ==> s == {};
  }

  /** The re-hydration loop of `FromSnapshotIndex` over one map. */
  method RehydrateAll<K>(m: map<K, seq<int>>, es: seq<LogEntry>) returns (out: map<K, seq<LogEntry>>)
    ensures out == RehydrateMap(m, es)
  {
    out := map[];
    var todo := m.Keys;
    while todo != {}
      invariant todo <= m.Keys
      invariant out == RehydratedBut(m, es, todo)
      decreases |todo|
    {
      NonEmptyHasKey(todo);
      var key :| key in todo;
      var indices := m[key];
      ghost var before := out;
      for j := 0 to |indices|
        invariant key !in out <==> Rehydrate(indices[..j], es) == []
        invariant key in out ==> out[key] == Rehydrate(indices[..j], es)
        invariant forall k :: k != key ==> (k in out <==> k in before)
        invariant forall k :: k != key && k in out ==> out[k] == before[k]
      {
        var i := indices[j];
        assert indices[..j + 1] == indices[..j] + [i];
        RehydrateSnoc(indices[..j], i, es);
        if 0 <= i < |es| {
          out := out[key := (if key in out then out[key] else []) + [es[i]]];
        }
      }
      assert indices[..|indices|] == indices;
      RehydratedStep(m, es, todo, key, before, out);
      todo := todo - {key};
    }
    assert out == RehydrateMap(m, es);
  }

  /** The re-hydrated lists of the keys of `m` outside `todo`. */
  function RehydratedBut<K>(m: map<K, seq<int>>, es: seq<LogEntry>, todo: set<K>): map<K, seq<LogEntry>> {
    map k | k in m && k !in todo && Rehydrate(m[k], es) != [] :: Rehydrate(m[k], es)
  }

  /** Re-hydrating one more key of `todo`, leaving the others alone. */
  lemma RehydratedStep<K>(m: map<K, seq<int>>, es: seq<LogEntry>, todo: set<K>, key: K,
                          before: map<K, seq<LogEntry>>, out: map<K, seq<LogEntry>>)
    requires key in todo && todo <= m.Keys
    requires before == RehydratedBut(m, es, todo)
    requires key !in out <==> Rehydrate(m[key], es) == []
    requires key in out ==> out[key] == Rehydrate(m[key], es)
    requires forall k :: k != key ==> (k in out <==> k in before)
    requires forall k :: k != key && k in out ==> out[k] == before[k]
    ensures out == RehydratedBut(m, es, todo - {key})
  {
    var after := RehydratedBut(m, es, todo - {key});
    assert forall k :: k in out <==> k in after;
    assert forall k :: k in out ==> out[k] == after[k];
  }

  method FromSnapshotIndex(si: SnapshotIndex, es: seq<LogEntry>) returns (idx: Index)
    ensures idx == FromSnapshotOf(si, es)
  {
    var byLevel := RehydrateAll(si.byLevel, es);
    var byHour := RehydrateAll(si.byHour, es);
    idx := Index(byLevel, byHour, si.hours);
  }

  /** Re-hydration keeps list order and drops exactly the out-of-range
      positions: with every position in range it is the list of entries at
      those positions, and it is never longer than the position list. */
  lemma {:induction false} RehydrateLenient(ps: seq<int>, es: seq<LogEntry>)
    ensures |Rehydrate(ps, es)| <= |ps|
    ensures (forall j :: 0 <= j < |ps| ==> 0 <= ps[j] < |es|) ==>
      Rehydrate(ps, es) == seq(|ps|, j requires 0 <= j < |ps| => es[ps[j]])
    ensures (forall j :: 0 <= j < |ps| ==> ps[j] < 0 || ps[j] >= |es|) ==> Rehydrate(ps, es) == []
  {
    if ps != [] {
      RehydrateLenient(ps[..|ps| - 1], es);
    }
  }

  /** The snapshot round trip rebuilds the very index `Build` makes. */
  lemma SnapshotRoundTrip(es: seq<LogEntry>)
    ensures FromSnapshotOf(SnapshotOf(es), es) == BuildOf(es)
  {
    RehydrateGroups(es, LevelKey);
    RehydrateGroups(es, HourOf);
  }

  lemma RehydrateGroups<K>(es: seq<LogEntry>, key: LogEntry -> K)
    ensures RehydrateMap(PositionMap(es, key), es) == GroupBy(es, key)
  {
    var a := RehydrateMap(PositionMap(es, key), es);
    var b := GroupBy(es, key);
    forall k | k in KeysOf(es, key)
      ensures k in a && a[k] == b[k]
    {
      RehydratePositions(es, key, k);
      BucketMembers(es, key, k);
      var x :| x in es && key(x) == k;
      assert x in Bucket(es, key, k);
    }
    assert a.Keys == b.Keys;
  }

  // ---------------------------------------------------------------------
  // Candidates

  /** The buckets of the hour keys from `start` on, in key order. */
  function HourRuns(hours: seq<int>, byHour: map<int, seq<LogEntry>>, start: int): seq<LogEntry> {
    if hours == [] then []
    else
      var h := hours[|hours| - 1];
      HourRuns(hours[..|hours| - 1], byHour, start) + (if h >= start then BucketOrEmpty(byHour, h) else [])
  }

  /** `collectFromHourBuckets`. */
  function CollectOf(ix: Index, cutoff: int): seq<LogEntry> {
    if |ix.hours| == 0 then [] else HourRuns(ix.hours, ix.byHour, HourBucket(cutoff))
  }

  method CollectFromHourBuckets(ix: Index, cutoff: int) returns (out: seq<LogEntry>)
    ensures out == CollectOf(ix, cutoff)
  {
    if |ix.hours| == 0 {
      return [];
    }
    var startKey := HourBucket(cutoff);
    out := [];
    for i := 0 to |ix.hours|
      invariant out == HourRuns(ix.hours[..i], ix.byHour, startKey)
    {
      var key := ix.hours[i];
      assert ix.hours[..i + 1][..i] == ix.hours[..i];
      if key < startKey {
        continue;
      }
      out := out + (if key in ix.byHour then ix.byHour[key] else []);
    }
    assert ix.hours[..|ix.hours|] == ix.hours;
  }

  /** The level buckets of a list of levels, in list order. */
  function LevelBuckets(ix: Index, levels: seq<string>): seq<seq<LogEntry>> {
    seq(|levels|, i requires 0 <= i < |levels| => BucketOrEmpty(ix.byLevel, ToUpper(levels[i])))
  }

  /** The union `FilterWithFilters` makes for a level list: first
      occurrences across the buckets in list order. */
  function LevelUnionOf(ix: Index, levels: seq<string>): seq<LogEntry> {
    Dedup(Flatten(LevelBuckets(ix, levels)))
  }

  /** The candidates of an AND filter: the level bucket, the level-list
      union or the hour buckets from the `after` hour, in that order of
      preference, and every entry when no index is given or nothing
      narrows. */
  function Candidates(all: seq<LogEntry>, idx: Option<Index>, f: Filters): seq<LogEntry> {
    match idx
    case None => all
    case Some(ix) =>
      if f.level != "" then BucketOrEmpty(ix.byLevel, ToUpper(f.level))
      else if |f.levelIn| > 0 then LevelUnionOf(ix, f.levelIn)
      else if f.after.Some? then CollectOf(ix, f.after.value)
      else all
  }

  function AndF(f: Filters): LogEntry -> bool {
    e => MatchesAll(e, f)
  }

  /** `FilterWithFilters`: an OR filter gives the first occurrences across
      its branches' results in branch order; an AND filter keeps the
      candidates that satisfy every set field, in candidate order. */
  function FilteredOf(all: seq<LogEntry>, idx: Option<Index>, f: Filters): seq<LogEntry>
    decreases f, 1
  {
    if |f.anyOf| > 0 then Dedup(Flatten(Branches(all, idx, f)))
    else Select(Candidates(all, idx, f), AndF(f))
  }

  function Branches(all: seq<LogEntry>, idx: Option<Index>, f: Filters): (r: seq<seq<LogEntry>>)
    ensures |r| == |f.anyOf|
    decreases f, 0
  {
    seq(|f.anyOf|, i requires 0 <= i < |f.anyOf| => FilteredOf(all, idx, f.anyOf[i]))
  }

  // ---------------------------------------------------------------------
  // Filtering methods

  lemma ElemsSnoc(s: seq<LogEntry>, x: LogEntry)
    ensures Elems(s + [x]) == Elems(s) + {x}
  {
  }

  /** The de-duplicating append loop: appends each entry of `part` not seen
      before and records it as seen. */
  method AppendUnseen(acc: seq<LogEntry>, ghost pre: seq<LogEntry>, seen: set<LogEntry>, part: seq<LogEntry>)
    returns (acc': seq<LogEntry>, seen': set<LogEntry>)
    requires acc == Dedup(pre) && seen == Elems(pre)
    ensures acc' == Dedup(pre + part) && seen' == Elems(pre + part)
  {
    acc', seen' := acc, seen;
    assert pre + part[..0] == pre;
    for j := 0 to |part|
      invariant acc' == Dedup(pre + part[..j])
      invariant seen' == Elems(pre + part[..j])
    {
      var e := part[j];
      UnseenStep(acc', seen', pre, part, j);
      if e !in seen' {
        seen' := seen' + {e};
        acc' := acc' + [e];
      }
    }
    assert part[..|part|] == part;
  }

  /** One step of the de-duplicating loop: an unseen entry is appended and
      recorded, a seen one changes nothing. */
  lemma UnseenStep(acc: seq<LogEntry>, seen: set<LogEntry>, pre: seq<LogEntry>, part: seq<LogEntry>, j: nat)
    requires j < |part|
    requires acc == Dedup(pre + part[..j]) && seen == Elems(pre + part[..j])
    ensures part[j] in seen ==> acc == Dedup(pre + part[..j + 1]) && seen == Elems(pre + part[..j + 1])
    ensures part[j] !in seen ==>
      acc + [part[j]] == Dedup(pre + part[..j + 1]) && seen + {part[j]} == Elems(pre + part[..j + 1])
  {
    var done := pre + part[..j];
    assert pre + part[..j + 1] == done + [part[j]];
    DedupSnoc(done, part[j]);
    ElemsSnoc(done, part[j]);
  }

  method LevelUnion(ix: Index, levels: seq<string>) returns (union: seq<LogEntry>)
    ensures union == LevelUnionOf(ix, levels)
  {
    ghost var parts := LevelBuckets(ix, levels);
    ghost var pre: seq<LogEntry> := [];
    union := [];
    var seen: set<LogEntry> := {};
    for i := 0 to |levels|
      invariant pre == Flatten(parts[..i])
      invariant union == Dedup(pre) && seen == Elems(pre)
    {
      var levelKey := ToUpper(levels[i]);
      var bucket := if levelKey in ix.byLevel then ix.byLevel[levelKey] else [];
      union, seen := AppendUnseen(union, pre, seen, bucket);
      assert parts[..i + 1][..i] == parts[..i];
      pre := pre + bucket;
    }
    assert parts[..|levels|] == parts;
  }

  /** The per-candidate check of `FilterWithFilters`. */
  method PassesAll(e: LogEntry, f: Filters) returns (ok: bool)
    ensures ok == MatchesAll(e, f)
  {
    if f.level != "" && !EqualFold(e.level, f.level) {
      return false;
    }
    if |f.levelIn| > 0 {
      var found := false;
      var j := 0;
      while j < |f.levelIn| && !found
        invariant 0 <= j <= |f.levelIn|
        invariant found <==> exists l :: l in f.levelIn[..j] && EqualFold(e.level, l)
      {
        assert f.levelIn[..j + 1] == f.levelIn[..j] + [f.levelIn[j]];
        if EqualFold(e.level, f.levelIn[j]) {
          found := true;
        }
        j := j + 1;
      }
      if found {
        var l :| l in f.levelIn[..j] && EqualFold(e.level, l);
        assert l in f.levelIn;
      } else {
        assert f.levelIn[..j] == f.levelIn;
      }
      if !found {
        return false;
      }
    }
    if f.after.Some? && e.ts < f.after.value {
      return false;
    }
    if f.before.Some? && !(e.ts < f.before.value) {
      return false;
    }
    if f.search != "" && !Contains(ToLower(e.message), ToLower(f.search)) {
      return false;
    }
    return true;
  }

  method FilterWithFilters(all: seq<LogEntry>, idx: Option<Index>, f: Filters) returns (r: seq<LogEntry>)
    ensures r == FilteredOf(all, idx, f)
    decreases f, 2
  {
    if |f.anyOf| > 0 {
      ghost var parts := Branches(all, idx, f);
      ghost var pre: seq<LogEntry> := [];
      var combined: seq<LogEntry> := [];
      var seen: set<LogEntry> := {};
      for i := 0 to |f.anyOf|
        invariant pre == Flatten(parts[..i])
        invariant combined == Dedup(pre) && seen == Elems(pre)
      {
        var part := FilterWithFilters(all, idx, f.anyOf[i]);
        combined, seen := AppendUnseen(combined, pre, seen, part);
        assert parts[..i + 1][..i] == parts[..i];
        pre := pre + part;
      }
      assert parts[..|f.anyOf|] == parts;
      return combined;
    }
    var candidates := all;
    if idx.Some? {
      var ix := idx.value;
      if f.level != "" {
        var levelKey := ToUpper(f.level);
        candidates := if levelKey in ix.byLevel then ix.byLevel[levelKey] else [];
      } else if |f.levelIn| > 0 {
        candidates := LevelUnion(ix, f.levelIn);
      } else if f.after.Some? {
        candidates := CollectFromHourBuckets(ix, f.after.value);
      }
    }
    r := [];
    for i := 0 to |candidates|
      invariant r == Select(candidates[..i], AndF(f))
    {
      var e := candidates[i];
      assert candidates[..i + 1][..i] == candidates[..i];
      var ok := PassesAll(e, f);
      if ok {
        r := r + [e];
      }
    }
    assert candidates[..|candidates|] == candidates;
  }

  /** `Filter`, the flag-driven path: the same as filtering with the flags'
      filter. */
  method Filter(all: seq<LogEntry>, idx: Option<Index>, level: string, cutoff: Option<int>, search: string)
    returns (r: seq<LogEntry>)
    ensures r == FilteredOf(all, idx, BuildFilters(level, cutoff, search))
  {
    ghost var f := BuildFilters(level, cutoff, search);
    var candidates := all;
    if idx.Some? {
      if level != "" {
        var levelKey := ToUpper(level);
        candidates := if levelKey in idx.value.byLevel then idx.value.byLevel[levelKey] else [];
      } else if cutoff.Some? {
        candidates := CollectFromHourBuckets(idx.value, cutoff.value);
      }
    }
    assert candidates == Candidates(all, idx, f);
    r := [];
    for i := 0 to |candidates|
      invariant r == Select(candidates[..i], AndF(f))
    {
      var e := candidates[i];
      assert candidates[..i + 1][..i] == candidates[..i];
      if level != "" && !EqualFold(e.level, level) {
        continue;
      }
      if cutoff.Some? && e.ts < cutoff.value {
        continue;
      }
      if search != "" && !Contains(ToLower(e.message), ToLower(search)) {
        continue;
      }
      r := r + [e];
    }
    assert candidates[..|candidates|] == candidates;
  }

  // ---------------------------------------------------------------------
  // Index path against the scan

  /** An index the filter may be given: none, or the one built from the
      very entries being filtered. */
  ghost predicate Consistent(all: seq<LogEntry>, idx: Option<Index>) {
    idx.None? || idx == Some(BuildOf(all))
  }

  lemma GroupBucket<K>(es: seq<LogEntry>, key: LogEntry -> K, k: K)
    ensures BucketOrEmpty(GroupBy(es, key), k) == Bucket(es, key, k)
  {
    if k !in KeysOf(es, key) {
      KeyAbsentBucket(es, key, k);
    }
  }

  /** The hour runs hold the entries whose hour is listed and not before
      the start hour. */
  lemma {:induction false} HourRunsMembers(all: seq<LogEntry>, hours: seq<int>, start: int)
    ensures forall x :: x in HourRuns(hours, GroupBy(all, HourOf), start) <==>
      x in all && HourOf(x) in hours && HourOf(x) >= start
  {
    if hours != [] {
      var init := hours[..|hours| - 1];
      var h := hours[|hours| - 1];
      HourRunsMembers(all, init, start);
      GroupBucket(all, HourOf, h);
      BucketMembers(all, HourOf, h);
      LastSplit(hours);
      assert forall y :: y in hours <==> y in init || y == h;
    }
  }

  /** Over duplicate-free entries and hours, the hour runs repeat nothing. */
  lemma {:induction false} HourRunsNoDups(all: seq<LogEntry>, hours: seq<int>, start: int)
    requires NoDups(all) && NoDups(hours)
    ensures NoDups(HourRuns(hours, GroupBy(all, HourOf), start))
  {
    if hours != [] {
      var init := hours[..|hours| - 1];
      var h := hours[|hours| - 1];
      LastSplit(hours);
      HourRunsNoDups(all, init, start);
      HourRunsMembers(all, init, start);
      GroupBucket(all, HourOf, h);
      BucketMembers(all, HourOf, h);
      BucketNoDups(all, HourOf, h);
      var tail := if h >= start then BucketOrEmpty(GroupBy(all, HourOf), h) else [];
      NoDupsConcat(HourRuns(init, GroupBy(all, HourOf), start), tail);
    }
  }

  /** `collectFromHourBuckets` over a built index returns the entries from
      the cutoff's hour on; in particular every entry at or after the
      cutoff. */
  lemma CollectMembers(all: seq<LogEntry>, cutoff: int)
    ensures forall x :: x in CollectOf(BuildOf(all), cutoff) <==>
      x in all && HourOf(x) >= HourBucket(cutoff)
    ensures forall x :: x in all && x.ts >= cutoff ==> x in CollectOf(BuildOf(all), cutoff)
  {
    var ix := BuildOf(all);
    HourRunsMembers(all, ix.hours, HourBucket(cutoff));
    assert forall x :: x in all ==> HourOf(x) in KeysOf(all, HourOf);
    assert forall x :: x in all ==> HourOf(x) in ix.hours;
    forall x | x in all && x.ts >= cutoff
      ensures HourOf(x) >= HourBucket(cutoff)
    {
      HourBucketBounds(cutoff, x.ts);
    }
  }

  /** The level-list union over a built index holds the entries whose
      level folds to one of the listed levels. */
  lemma LevelUnionMembers(all: seq<LogEntry>, levels: seq<string>)
    ensures forall x :: x in LevelUnionOf(BuildOf(all), levels) <==>
      x in all && LevelInOk(x, levels) && |levels| > 0
  {
    var parts := LevelBuckets(BuildOf(all), levels);
    DedupMembers(Flatten(parts));
    FlattenMembers(parts);
    forall i | 0 <= i < |levels|
      ensures forall x :: x in parts[i] <==> x in all && EqualFold(x.level, levels[i])
    {
      GroupBucket(all, LevelKey, ToUpper(levels[i]));
      BucketMembers(all, LevelKey, ToUpper(levels[i]));
    }
    forall x
      ensures InSome(parts, x) <==> x in all && LevelInOk(x, levels) && |levels| > 0
    {
      if x in all && LevelInOk(x, levels) && |levels| > 0 {
        var l :| l in levels && EqualFold(x.level, l);
        var i :| 0 <= i < |levels| && levels[i] == l;
        assert x in parts[i];
      }
    }
  }

  /** On a consistent index an AND filter's candidates are entries, and
      include every entry that satisfies the filter. */
  lemma CandidatesCover(all: seq<LogEntry>, idx: Option<Index>, f: Filters)
    requires Consistent(all, idx)
    ensures forall x :: x in Candidates(all, idx, f) ==> x in all
    ensures forall x :: x in all && MatchesAll(x, f) ==> x in Candidates(all, idx, f)
  {
    if idx.Some? {
      var ix := idx.value;
      if f.level != "" {
        GroupBucket(all, LevelKey, ToUpper(f.level));
        BucketMembers(all, LevelKey, ToUpper(f.level));
      } else if |f.levelIn| > 0 {
        LevelUnionMembers(all, f.levelIn);
      } else if f.after.Some? {
        CollectMembers(all, f.after.value);
      }
    }
  }

  /** With no index or a consistent one, the filter returns exactly the
      entries that match it. */
  lemma {:induction false} FilteredMembers(all: seq<LogEntry>, idx: Option<Index>, f: Filters)
    requires Consistent(all, idx)
    ensures forall x :: x in FilteredOf(all, idx, f) <==> x in all && Matches(x, f)
    decreases f
  {
    if |f.anyOf| > 0 {
      var parts := Branches(all, idx, f);
      DedupMembers(Flatten(parts));
      FlattenMembers(parts);
      forall i | 0 <= i < |f.anyOf|
        ensures forall x :: x in parts[i] <==> x in all && Matches(x, f.anyOf[i])
      {
        FilteredMembers(all, idx, f.anyOf[i]);
      }
      forall x
        ensures InSome(parts, x) <==> x in all && Matches(x, f)
      {
        MatchesOr(x, f);
        if x in all && Matches(x, f) {
          var i :| 0 <= i < |f.anyOf| && Matches(x, f.anyOf[i]);
          assert x in parts[i];
        }
      }
    } else {
      CandidatesCover(all, idx, f);
      SelectMembers(Candidates(all, idx, f), AndF(f));
    }
  }

  /** Over duplicate-free entries, no path of the filter repeats an entry. */
  lemma FilteredNoDups(all: seq<LogEntry>, idx: Option<Index>, f: Filters)
    requires Consistent(all, idx) && NoDups(all)
    ensures NoDups(FilteredOf(all, idx, f))
  {
    if |f.anyOf| > 0 {
      DedupNoDups(Flatten(Branches(all, idx, f)));
    } else {
      if idx.Some? {
        if f.level != "" {
          GroupBucket(all, LevelKey, ToUpper(f.level));
          BucketNoDups(all, LevelKey, ToUpper(f.level));
        } else if |f.levelIn| > 0 {
          DedupNoDups(Flatten(LevelBuckets(idx.value, f.levelIn)));
        } else if f.after.Some? {
          SortedNoDups(idx.value.hours);
          HourRunsNoDups(all, idx.value.hours, HourBucket(f.after.value));
        }
      }
      SelectNoDups(Candidates(all, idx, f), AndF(f));
    }
  }

  /** Over duplicate-free entries, filtering with a built index gives a
      permutation of the plain scan. */
  lemma FilteredPermutesScan(all: seq<LogEntry>, idx: Option<Index>, f: Filters)
    requires Consistent(all, idx) && NoDups(all)
    ensures multiset(FilteredOf(all, idx, f)) == multiset(Select(all, MatchingF(f)))
  {
    FilteredNoDups(all, idx, f);
    SelectNoDups(all, MatchingF(f));
    FilteredMembers(all, idx, f);
    SelectMembers(all, MatchingF(f));
    assert Elems(FilteredOf(all, idx, f)) == Elems(Select(all, MatchingF(f)));
    NoDupsSameElems(FilteredOf(all, idx, f), Select(all, MatchingF(f)));
  }

  /** Over duplicate-free hours, the hour runs repeat an entry no more
      often than the entries do. */
  lemma {:induction false} HourRunsCount(all: seq<LogEntry>, hours: seq<int>, start: int)
    requires NoDups(hours)
    ensures multiset(HourRuns(hours, GroupBy(all, HourOf), start)) <= multiset(all)
  {
    if hours != [] {
      var init := hours[..|hours| - 1];
      var h := hours[|hours| - 1];
      LastSplit(hours);
      HourRunsCount(all, init, start);
      HourRunsMembers(all, init, start);
      var front := HourRuns(init, GroupBy(all, HourOf), start);
      var tail := if h >= start then BucketOrEmpty(GroupBy(all, HourOf), h) else [];
      assert HourRuns(hours, GroupBy(all, HourOf), start) == front + tail;
      assert h !in init;
      HourRunCount(all, h, start);
      AddHourRun(all, front, tail, h);
    }
  }

  /** The run of one hour holds the entries of that hour, as often as
      the entries do. */
  lemma HourRunCount(all: seq<LogEntry>, h: int, start: int)
    ensures forall x ::
              multiset(if h >= start then BucketOrEmpty(GroupBy(all, HourOf), h) else [])[x]
              <= if HourOf(x) == h then multiset(all)[x] else 0
  {
    GroupBucket(all, HourOf, h);
    BucketCount(all, HourOf, h);
  }

  /** Appending entries of one hour that the front does not hold yet
      keeps the count within the entries'. */
  lemma AddHourRun(all: seq<LogEntry>, front: seq<LogEntry>, tail: seq<LogEntry>, h: int)
    requires multiset(front) <= multiset(all)
    requires forall x :: x in front ==> HourOf(x) != h
    requires forall x :: multiset(tail)[x] <= if HourOf(x) == h then multiset(all)[x] else 0
    ensures multiset(front + tail) <= multiset(all)
  {
    forall x
      ensures multiset(front + tail)[x] <= multiset(all)[x]
    {
      if HourOf(x) == h {
        assert x !in front;
      }
    }
  }

  /** On a consistent index an AND filter's candidates hold each entry at
      most as often as the entries do. */
  lemma CandidatesSubMultiset(all: seq<LogEntry>, idx: Option<Index>, f: Filters)
    requires Consistent(all, idx)
    ensures multiset(Candidates(all, idx, f)) <= multiset(all)
  {
    if idx.Some? {
      var ix := idx.value;
      if f.level != "" {
        GroupBucket(all, LevelKey, ToUpper(f.level));
        BucketCount(all, LevelKey, ToUpper(f.level));
      } else if |f.levelIn| > 0 {
        LevelUnionMembers(all, f.levelIn);
        DedupNoDups(Flatten(LevelBuckets(ix, f.levelIn)));
        NoDupsSubMultiset(LevelUnionOf(ix, f.levelIn), all);
      } else if f.after.Some? {
        SortedNoDups(ix.hours);
        HourRunsCount(all, ix.hours, HourBucket(f.after.value));
      }
    }
  }

  /** With no index or a consistent one, the filter returns each entry at
      most as often as the entries hold it. */
  lemma FilteredSubMultiset(all: seq<LogEntry>, idx: Option<Index>, f: Filters)
    requires Consistent(all, idx)
    ensures multiset(FilteredOf(all, idx, f)) <= multiset(all)
  {
    if |f.anyOf| > 0 {
      FilteredMembers(all, idx, f);
      DedupNoDups(Flatten(Branches(all, idx, f)));
      NoDupsSubMultiset(FilteredOf(all, idx, f), all);
    } else {
      var c := Candidates(all, idx, f);
      CandidatesSubMultiset(all, idx, f);
      SelectCount(c, AndF(f));
      assert multiset(Select(c, AndF(f))) <= multiset(c);
    }
  }

  /** So the filter never returns more entries than it is given. */
  lemma FilteredLength(all: seq<LogEntry>, idx: Option<Index>, f: Filters)
    requires Consistent(all, idx)
    ensures |FilteredOf(all, idx, f)| <= |all|
  {
    FilteredSubMultiset(all, idx, f);
    SubMultisetLength(FilteredOf(all, idx, f), all);
  }

  /** Without an index an AND filter is the scan itself, in input order. */
  lemma ScanPath(all: seq<LogEntry>, f: Filters)
    requires |f.anyOf| == 0
    ensures FilteredOf(all, None, f) == Select(all, MatchingF(f))
  {
    SelectSame(all, AndF(f), MatchingF(f));
  }

  /** Through the level bucket of a built index an AND filter gives the
      scan's result in the same order. */
  lemma LevelPath(all: seq<LogEntry>, f: Filters)
    requires |f.anyOf| == 0 && f.level != ""
    ensures FilteredOf(all, Some(BuildOf(all)), f) == Select(all, MatchingF(f))
  {
    GroupBucket(all, LevelKey, ToUpper(f.level));
    BucketNarrow(all, LevelKey, ToUpper(f.level), AndF(f));
    SelectSame(all, AndF(f), MatchingF(f));
  }

  /** An OR filter drops repeated entries, which the scan keeps: two equal
      entries and the single branch that matches everything give one entry
      against two. */
  lemma OrCollapsesRepeats(e: LogEntry)
    ensures FilteredOf([e, e], None, Empty.(anyOf := [Empty])) == [e]
    ensures Select([e, e], MatchingF(Empty.(anyOf := [Empty]))) == [e, e]
  {
    var f := Empty.(anyOf := [Empty]);
    ScanKeepsPair(e);
    assert Branches([e, e], None, f) == [[e, e]] by {
      assert Branches([e, e], None, f)[0] == FilteredOf([e, e], None, Empty);
    }
    assert Flatten([[e, e]]) == [e, e] by {
      assert [[e, e]][..0] == [];
    }
    assert Dedup([e, e]) == [e] by {
      assert [e, e][..1] == [e];
      assert Dedup([e]) == [e] by { assert [e][..0] == []; }
    }
    assert Select([e, e], MatchingF(f)) == [e, e] by {
      assert Matches(e, f) by { assert Matches(e, f.anyOf[0]); }
      assert [e, e][..1] == [e];
      assert [e][..0] == [];
    }
  }

  /** The scan with the empty filter keeps both copies of a repeated entry. */
  lemma ScanKeepsPair(e: LogEntry)
    ensures FilteredOf([e, e], None, Empty) == [e, e]
  {
    assert [e, e][..1] == [e];
    assert [e][..0] == [];
    assert AndF(Empty)(e) by { assert MatchesAll(e, Empty); }
    assert Select([e], AndF(Empty)) == [e];
  }

  // ---------------------------------------------------------------------
  // The text key of the OR and level-list de-duplication

  /** The key `FilterWithFilters` de-duplicates on: the instant as `stamp`
      formats it (RFC 3339 with nanoseconds), the level and the message,
      joined by `|`. */
  function EntryKey(stamp: int -> string, e: LogEntry): string {
    stamp(e.ts) + "|" + e.level + "|" + e.message
  }

  function KeyF(stamp: int -> string): LogEntry -> string {
    e => EntryKey(stamp, e)
  }

  /** The OR combination as written: the first entry with each text key,
      across the branch results in branch order. */
  function CombineAsWritten(stamp: int -> string, parts: seq<seq<LogEntry>>): seq<LogEntry> {
    DedupBy(Flatten(parts), KeyF(stamp))
  }

  /** Two different entries share a text key once a level holds a `|`. The
      query `search=C OR level=X` matches both, and the combination as
      written keeps only the first, while the model's filter returns the
      two of them. */
  lemma KeyCollisionDropsEntry(stamp: int -> string)
    ensures var a, b := LogEntry(0, "A|B", "C"), LogEntry(0, "A", "B|C");
      var f := Empty.(anyOf := [Empty.(search := "C"), Empty.(level := "X")]);
      && a != b && Matches(a, f) && Matches(b, f)
      && EntryKey(stamp, a) == EntryKey(stamp, b)
      && CombineAsWritten(stamp, Branches([a, b], None, f)) == [a]
      && FilteredOf([a, b], None, f) == [a, b]
  {
    var a, b := LogEntry(0, "A|B", "C"), LogEntry(0, "A", "B|C");
    var f := Empty.(anyOf := [Empty.(search := "C"), Empty.(level := "X")]);
    CollisionBranches(a, b);
    FlattenPair([a, b], []);
    assert [a, b] + [] == [a, b];
    KeysCollide(stamp, a, b);
    DedupPair(a, b, KeyF(stamp));
    assert Matches(a, f) by { assert Matches(a, f.anyOf[0]); }
    assert Matches(b, f) by { assert Matches(b, f.anyOf[0]); }
  }

  lemma KeysCollide(stamp: int -> string, a: LogEntry, b: LogEntry)
    requires a == LogEntry(0, "A|B", "C") && b == LogEntry(0, "A", "B|C")
    ensures a != b && EntryKey(stamp, a) == EntryKey(stamp, b)
  {
    assert a.level != b.level;
    assert EntryKey(stamp, a) == stamp(0) + "|A|B|C";
    assert EntryKey(stamp, b) == stamp(0) + "|A|B|C";
  }

  /** The two branches of `search=C OR level=X` over the colliding pair:
      both entries mention `C` and neither has level `X`. */
  lemma CollisionBranches(a: LogEntry, b: LogEntry)
    requires a == LogEntry(0, "A|B", "C") && b == LogEntry(0, "A", "B|C")
    ensures MatchesAll(a, Empty.(search := "C")) && MatchesAll(b, Empty.(search := "C"))
    ensures Branches([a, b], None, Empty.(anyOf := [Empty.(search := "C"), Empty.(level := "X")]))
         == [[a, b], []]
  {
    var search, level := Empty.(search := "C"), Empty.(level := "X");
    MentionsC(a);
    MentionsC(b);
    NotLevelX(a);
    NotLevelX(b);
    SelectPair(a, b, AndF(search));
    SelectPair(a, b, AndF(level));
    var br := Branches([a, b], None, Empty.(anyOf := [search, level]));
    assert br[0] == FilteredOf([a, b], None, search) == [a, b];
    assert br[1] == FilteredOf([a, b], None, level) == [];
    assert br == [br[0], br[1]];
  }

  lemma MentionsC(e: LogEntry)
    requires e.message == "C" || e.message == "B|C"
    ensures MatchesAll(e, Empty.(search := "C"))
  {
    assert ToLower("C") == "c";
    if e.message == "C" {
      assert OccursAt(ToLower(e.message), "c", 0);
    } else {
      assert ToLower("B|C") == "b|c";
      assert OccursAt(ToLower(e.message), "c", 2);
    }
  }

  lemma NotLevelX(e: LogEntry)
    requires e.level == "A|B" || e.level == "A"
    ensures !MatchesAll(e, Empty.(level := "X"))
  {
    assert ToUpper("X")[0] == 'X';
    assert ToUpper(e.level)[0] == 'A';
  }

  /** Where the formatter never writes a `|` and tells instants apart, and
      no level holds a `|`, the text key tells entries apart, so the
      combination as written is the model's first-occurrence union. */
  lemma CombineAsWrittenAgrees(stamp: int -> string, parts: seq<seq<LogEntry>>)
    requires forall t :: '|' !in stamp(t)
    requires forall t, u :: stamp(t) == stamp(u) ==> t == u
    requires forall e :: e in Flatten(parts) ==> '|' !in e.level
    ensures CombineAsWritten(stamp, parts) == Dedup(Flatten(parts))
  {
    var s := Flatten(parts);
    forall i, j | 0 <= i < |s| && 0 <= j < |s| && KeyF(stamp)(s[i]) == KeyF(stamp)(s[j])
      ensures s[i] == s[j]
    {
      KeyTellsApart(stamp, s[i], s[j]);
    }
    DedupByInjective(s, KeyF(stamp));
  }

  lemma KeyTellsApart(stamp: int -> string, a: LogEntry, b: LogEntry)
    requires '|' !in stamp(a.ts) && '|' !in stamp(b.ts) && '|' !in a.level && '|' !in b.level
    requires stamp(a.ts) == stamp(b.ts) ==> a.ts == b.ts
    requires EntryKey(stamp, a) == EntryKey(stamp, b)
    ensures a == b
  {
    assert EntryKey(stamp, a) == stamp(a.ts) + ['|'] + (a.level + "|" + a.message);
    assert EntryKey(stamp, b) == stamp(b.ts) + ['|'] + (b.level + "|" + b.message);
    SplitAtSeparator(stamp(a.ts), stamp(b.ts), '|', a.level + "|" + a.message, b.level + "|" + b.message);
    SplitAtSeparator(a.level, b.level, '|', a.message, b.message);
  }
}
