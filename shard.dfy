/** Day shards: one JSONL file per UTC day, named `<YYYY-MM-DD>.jsonl`
    under a base directory. Instants are whole seconds since the Unix
    epoch; the UTC day of an instant is its floor division by 86400. The
    conversion between a day and its `YYYY-MM-DD` text is the calendar
    supplied by the caller (Go's `time.Format`/`time.Parse` with layout
    `2006-01-02`). */
module Shard {
  import opened Types
  import opened Seqs
  import opened Text

  const SecondsPerDay := 86400
  const Extension := ".jsonl"

  /** Day `d` (days since 1970-01-01) rendered as `YYYY-MM-DD`, and the
      parse of such a text back to a day. */
  datatype Calendar = Calendar(format: int -> string, parse: string -> Option<int>)

  /** What the model needs of Go's date layout: a formatted day parses back
      to the same day and never contains a path separator. */
  ghost predicate Lawful(cal: Calendar) {
    forall d :: cal.parse(cal.format(d)) == Some(d) && '/' !in cal.format(d)
  }

  lemma FormatInjective(cal: Calendar, d1: int, d2: int)
    requires Lawful(cal)
    ensures cal.format(d1) == cal.format(d2) <==> d1 == d2
  {
    assert cal.parse(cal.format(d1)) == Some(d1);
    assert cal.parse(cal.format(d2)) == Some(d2);
  }

  /** The UTC day holding instant `ts` (Euclidean division floors, as the
      calendar does for instants before the epoch). */
  function DayOf(ts: int): (d: int)
    ensures d * SecondsPerDay <= ts < (d + 1) * SecondsPerDay
  {
    ts / SecondsPerDay
  }

  /** The UTC midnight that starts day `d`. */
  function Midnight(d: int): (t: int)
    ensures DayOf(t) == d
  {
    d * SecondsPerDay
  }

  // ---------------------------------------------------------------------
  // Paths

  function StripSlashes(s: string): (r: string)
    ensures r == [] || r[|r| - 1] != '/'
    ensures r <= s
  {
    if s != [] && s[|s| - 1] == '/' then StripSlashes(s[..|s| - 1]) else s
  }

  /** The text after the last `/` of `s` (all of `s` when it has none). */
  function AfterLastSlash(s: string): (r: string)
    ensures '/' !in r
    ensures |r| <= |s| && s[|s| - |r|..] == r
  {
    if s == [] || s[|s| - 1] == '/' then []
    else AfterLastSlash(s[..|s| - 1]) + [s[|s| - 1]]
  }

  /** `filepath.Join(dir, name)` for a name without separators: an empty
      directory is dropped, and trailing slashes of the directory collapse
      into the single separator. */
  function JoinPath(dir: string, name: string): (r: string)
    ensures dir == "" ==> r == name
    ensures HasSuffix(r, name)
  {
    if dir == "" then name else StripSlashes(dir) + "/" + name
  }

  /** `filepath.Base`: the last element of the path after trailing slashes
      are removed; "." for the empty path and "/" for a path of slashes. */
  function Base(path: string): (r: string)
    ensures r != ""
  {
    if path == "" then "."
    else
      var t := StripSlashes(path);
      if t == "" then "/" else AfterLastSlash(t)
  }

  lemma {:induction false} AfterLastSlashOf(prefix: string, name: string)
    requires '/' !in name
    requires prefix == [] || prefix[|prefix| - 1] == '/'
    ensures AfterLastSlash(prefix + name) == name
    decreases |name|
  {
    if name == [] {
      assert prefix + name == prefix;
    } else {
      var init, last := name[..|name| - 1], name[|name| - 1];
      assert last in name;
      assert prefix + name == (prefix + init) + [last] by {
        LastSplit(name);
      }
      AfterLastSlashSnoc(prefix + init, last);
      AfterLastSlashOf(prefix, init);
      LastSplit(name);
    }
  }

  lemma AfterLastSlashSnoc(s: string, c: char)
    requires c != '/'
    ensures AfterLastSlash(s + [c]) == AfterLastSlash(s) + [c]
  {
    assert (s + [c])[..|s|] == s;
  }

  /** The base of a joined path is the name joined on. */
  lemma BaseOfJoin(dir: string, name: string)
    requires '/' !in name && name != ""
    ensures Base(JoinPath(dir, name)) == name
  {
    var p := JoinPath(dir, name);
    assert p[|p| - 1] == name[|name| - 1];
    assert StripSlashes(p) == p;
    if dir == "" {
      AfterLastSlashOf([], name);
      assert [] + name == name;
    } else {
      var prefix := StripSlashes(dir) + "/";
      assert p == prefix + name;
      AfterLastSlashOf(prefix, name);
    }
  }

  /** `DayShardPath`: the shard file of the UTC day holding `t`. */
  function DayShardPath(cal: Calendar, baseDir: string, t: int): (r: string)
    ensures HasSuffix(r, cal.format(DayOf(t)) + Extension)
  {
    JoinPath(baseDir, cal.format(DayOf(t)) + Extension)
  }

  /** `ParseShardDate`: the UTC midnight named by a shard file's base name,
      or `None` unless that name ends in `.jsonl` and the rest parses as a
      date. */
  function ParseShardDate(cal: Calendar, path: string): (r: Option<int>)
    ensures r.Some? <==>
              (HasSuffix(Base(path), Extension)
               && cal.parse(Base(path)[..|Base(path)| - |Extension|]).Some?)
    ensures r.Some? ==> DayOf(r.value) * SecondsPerDay == r.value
  {
    var base := Base(path);
    if !HasSuffix(base, Extension) then None
    else
      match cal.parse(base[..|base| - |Extension|])
      case None => None
      case Some(d) => Some(Midnight(d))
  }

  /** Reading the date back from a shard path gives the midnight of the day
      the path was made for. */
  lemma ShardDateRoundTrip(cal: Calendar, baseDir: string, t: int)
    requires Lawful(cal)
    ensures ParseShardDate(cal, DayShardPath(cal, baseDir, t)) == Some(Midnight(DayOf(t)))
  {
    var day := cal.format(DayOf(t));
    var name := day + Extension;
    assert '/' !in name by {
      assert forall c :: c in name ==> c in day || c in Extension;
    }
    BaseOfJoin(baseDir, name);
    assert name[..|name| - |Extension|] == day;
  }

  /** A base name without the `.jsonl` suffix names no shard. */
  lemma ShardDateNeedsSuffix(cal: Calendar, path: string)
    requires !HasSuffix(Base(path), Extension)
    ensures ParseShardDate(cal, path) == None
  {
  }

  // ---------------------------------------------------------------------
  // Grouping by day

  function DayKey(cal: Calendar): LogEntry -> string {
    (e: LogEntry) => cal.format(DayOf(e.ts))
  }

  /** `GroupByDay`: every entry appended to the bucket of its day's name. */
  method GroupByDay(cal: Calendar, entries: seq<LogEntry>) returns (out: map<string, seq<LogEntry>>)
    ensures out == GroupBy(entries, DayKey(cal))
  {
    out := map[];
    for i := 0 to |entries|
      invariant out == GroupBy(entries[..i], DayKey(cal))
    {
      var e := entries[i];
      var key := cal.format(DayOf(e.ts));
      assert entries[..i + 1] == entries[..i] + [e];
      GroupBySnoc(entries[..i], DayKey(cal), e);
      out := out[key := (if key in out then out[key] else []) + [e]];
    }
    assert entries[..|entries|] == entries;
  }

  predicate OnDay(d: int, e: LogEntry) {
    DayOf(e.ts) == d
  }

  lemma {:induction false} BucketIsSelect<T, K>(s: seq<T>, key: T -> K, k: K, p: T -> bool)
    requires forall x :: x in s ==> (p(x) <==> key(x) == k)
    ensures Bucket(s, key, k) == Select(s, p)
  {
    if s != [] {
      BucketIsSelect(s[..|s| - 1], key, k, p);
    }
  }

  /** The bucket named after day `d` holds exactly the entries of that UTC
      day, in input order and with their multiplicities; a day without
      entries has no bucket. */
  lemma GroupByDayBuckets(cal: Calendar, entries: seq<LogEntry>, d: int)
    requires Lawful(cal)
    ensures BucketOrEmpty(GroupBy(entries, DayKey(cal)), cal.format(d))
         == Select(entries, (e: LogEntry) => OnDay(d, e))
    ensures cal.format(d) in GroupBy(entries, DayKey(cal)) <==> exists e :: e in entries && OnDay(d, e)
  {
    var key := DayKey(cal);
    var k := cal.format(d);
    forall x | x in entries
      ensures OnDay(d, x) <==> key(x) == k
    {
      FormatInjective(cal, DayOf(x.ts), d);
    }
    BucketIsSelect(entries, key, k, (e: LogEntry) => OnDay(d, e));
    if k !in KeysOf(entries, key) {
      KeyAbsentBucket(entries, key, k);
    }
    if exists e :: e in entries && OnDay(d, e) {
      var e :| e in entries && OnDay(d, e);
      assert key(e) == k;
    }
  }

  /** Every entry lands in exactly one bucket: over any duplicate-free list
      of day names that covers the entries, the bucket sizes sum to the
      number of entries. */
  lemma GroupByDaySizes(cal: Calendar, entries: seq<LogEntry>, days: seq<string>)
    requires NoDups(days)
    requires forall e :: e in entries ==> cal.format(DayOf(e.ts)) in days
    ensures SizeSum(GroupBy(entries, DayKey(cal)), days) == |entries|
  {
    GroupBySizes(entries, DayKey(cal), days);
  }

  // ---------------------------------------------------------------------
  // Days in a range

  /** The two instants a query range spans, earliest first: a missing
      bound takes the value of the other one; no bounds, no span. */
  function Span(after: Option<int>, before: Option<int>): (r: Option<(int, int)>)
    ensures r.None? <==> after.None? && before.None?
    ensures r.Some? ==> r.value.0 <= r.value.1
    ensures r.Some? && after.Some? ==> r.value.0 <= after.value <= r.value.1
    ensures r.Some? && before.Some? ==> r.value.0 <= before.value <= r.value.1
    ensures r.Some? ==> after == Some(r.value.0) || before == Some(r.value.0)
    ensures r.Some? ==> after == Some(r.value.1) || before == Some(r.value.1)
  {
    if after.None? && before.None? then None
    else
      var start := if after.Some? then after.value else before.value;
      var end := if before.Some? then before.value else after.value;
      if end < start then Some((end, start)) else Some((start, end))
  }

  /** The names of the days `first` to `last`, one per day, in order. */
  function DayNames(cal: Calendar, first: int, last: int): (r: seq<string>)
    ensures |r| == if first <= last then last - first + 1 else 0
    ensures forall i :: 0 <= i < |r| ==> r[i] == cal.format(first + i)
  {
    seq(if first <= last then last - first + 1 else 0, i => cal.format(first + i))
  }

  function DaysOf(cal: Calendar, after: Option<int>, before: Option<int>): seq<string> {
    match Span(after, before)
    case None => []
    case Some((lo, hi)) => DayNames(cal, DayOf(lo), DayOf(hi))
  }

  /** `DaysInRange`: the UTC days from the day of the earlier bound to the
      day of the later one, both included. */
  method DaysInRange(cal: Calendar, after: Option<int>, before: Option<int>) returns (days: seq<string>)
    ensures days == DaysOf(cal, after, before)
  {
    if after.None? && before.None? {
      return [];
    }
    var start := if after.Some? then after.value else before.value;
    var end := if before.Some? then before.value else after.value;
    if end < start {
      start, end := end, start;
    }
    var startDay := DayOf(start);
    var endDay := DayOf(end);
    days := [];
    var d := startDay;
    while d <= endDay
      invariant startDay <= d <= endDay + 1
      invariant days == DayNames(cal, startDay, d - 1)
      decreases endDay - d
    {
      days := days + [cal.format(d)];
      d := d + 1;
    }
  }

  /** With no bounds there are no days. */
  lemma DaysNoBounds(cal: Calendar)
    ensures DaysOf(cal, None, None) == []
  {
  }

  /** With a single bound the range is the one day holding it. */
  lemma DaysOneBound(cal: Calendar, t: int)
    ensures DaysOf(cal, Some(t), None) == [cal.format(DayOf(t))]
    ensures DaysOf(cal, None, Some(t)) == [cal.format(DayOf(t))]
  {
  }

  /** Inverted bounds give the same days as the bounds in order. */
  lemma DaysSwapped(cal: Calendar, a: int, b: int)
    ensures DaysOf(cal, Some(a), Some(b)) == DaysOf(cal, Some(b), Some(a))
  {
  }

  /** The days run without gaps from the day of the earlier bound to the
      day of the later one; every instant between the bounds falls on a
      listed day, and with a lawful calendar no day is listed twice. */
  lemma DaysCover(cal: Calendar, a: int, b: int, t: int)
    requires a <= t <= b
    ensures |DaysOf(cal, Some(a), Some(b))| == DayOf(b) - DayOf(a) + 1
    ensures forall i :: 0 <= i < DayOf(b) - DayOf(a) + 1 ==>
              DaysOf(cal, Some(a), Some(b))[i] == cal.format(DayOf(a) + i)
    ensures cal.format(DayOf(t)) in DaysOf(cal, Some(a), Some(b))
  {
    var days := DaysOf(cal, Some(a), Some(b));
    assert DayOf(a) <= DayOf(t) <= DayOf(b);
    assert days[DayOf(t) - DayOf(a)] == cal.format(DayOf(t));
  }

  lemma DaysDistinct(cal: Calendar, after: Option<int>, before: Option<int>)
    requires Lawful(cal)
    ensures NoDups(DaysOf(cal, after, before))
  {
    var days := DaysOf(cal, after, before);
    if Span(after, before).Some? {
      var first := DayOf(Span(after, before).value.0);
      forall i, j | 0 <= i < j < |days|
        ensures days[i] != days[j]
      {
        FormatInjective(cal, first + i, first + j);
      }
    }
  }

  // ---------------------------------------------------------------------
  // Shard paths for a range

  function PathsOf(cal: Calendar, baseDir: string, after: Option<int>, before: Option<int>): (r: seq<string>)
    ensures |r| == |DaysOf(cal, after, before)|
  {
    var days := DaysOf(cal, after, before);
    seq(|days|, i requires 0 <= i < |days| => JoinPath(baseDir, days[i] + Extension))
  }

  /** `ShardPathsForRange`: the shard file of each day in the range, in
      day order; none when the range has no days. */
  method ShardPathsForRange(cal: Calendar, baseDir: string, after: Option<int>, before: Option<int>)
    returns (paths: seq<string>)
    ensures paths == PathsOf(cal, baseDir, after, before)
  {
    var days := DaysInRange(cal, after, before);
    if |days| == 0 {
      return [];
    }
    paths := [];
    for i := 0 to |days|
      invariant |paths| == i
      invariant forall k :: 0 <= k < i ==> paths[k] == JoinPath(baseDir, days[k] + Extension)
    {
      paths := paths + [JoinPath(baseDir, days[i] + Extension)];
    }
  }

  /** The `i`-th path of a range is the shard of the `i`-th day after the
      first, and reading its date back gives that day's midnight. */
  lemma PathsAreDayShards(cal: Calendar, baseDir: string, a: int, b: int, i: int)
    requires Lawful(cal)
    requires a <= b && 0 <= i <= DayOf(b) - DayOf(a)
    ensures |PathsOf(cal, baseDir, Some(a), Some(b))| == DayOf(b) - DayOf(a) + 1
    ensures PathsOf(cal, baseDir, Some(a), Some(b))[i]
         == DayShardPath(cal, baseDir, Midnight(DayOf(a) + i))
    ensures ParseShardDate(cal, PathsOf(cal, baseDir, Some(a), Some(b))[i])
         == Some(Midnight(DayOf(a) + i))
  {
    DaysCover(cal, a, b, a);
    var day := DayOf(a) + i;
    var days := DaysOf(cal, Some(a), Some(b));
    assert days[i] == cal.format(day);
    assert PathsOf(cal, baseDir, Some(a), Some(b))[i] == JoinPath(baseDir, days[i] + Extension);
    assert DayOf(Midnight(day)) == day;
    ShardDateRoundTrip(cal, baseDir, Midnight(day));
  }

  // ---------------------------------------------------------------------
  // Sorting

  predicate SortedByTime(s: seq<LogEntry>) {
    forall i, j :: 0 <= i < j < |s| ==> s[i].ts <= s[j].ts
  }

  /** `SortEntries`: rearranges the entries in place into timestamp order.
      Entries with equal timestamps may end up in any order. */
  method SortEntries(a: array<LogEntry>)
    modifies a
    ensures SortedByTime(a[..])
    ensures multiset(a[..]) == multiset(old(a[..]))
  {
    for i := 0 to a.Length
      invariant SortedByTime(a[..i])
      invariant multiset(a[..]) == multiset(old(a[..]))
    {
      Insert(a, i);
    }
    assert a[..a.Length] == a[..];
  }

  /** One pass of insertion: moves `a[i]` down past every earlier entry
      with a later timestamp, extending the sorted prefix by one. */
  method Insert(a: array<LogEntry>, i: int)
    requires 0 <= i < a.Length
    requires SortedByTime(a[..i])
    modifies a
    ensures SortedByTime(a[..i + 1])
    ensures multiset(a[..]) == multiset(old(a[..]))
  {
    var j := i;
    while j > 0 && a[j - 1].ts > a[j].ts
      invariant 0 <= j <= i
      invariant forall p, q :: 0 <= p < q <= i && p != j && q != j ==> a[p].ts <= a[q].ts
      invariant forall q :: j < q <= i ==> a[j].ts <= a[q].ts
      invariant multiset(a[..]) == multiset(old(a[..]))
    {
      Swap(a, j - 1, j);
      j := j - 1;
    }
  }

  method Swap(a: array<LogEntry>, i: int, j: int)
    requires 0 <= i < a.Length && 0 <= j < a.Length
    modifies a
    ensures a[..] == old(a[..])[i := old(a[j])][j := old(a[i])]
    ensures multiset(a[..]) == multiset(old(a[..]))
  {
    a[i], a[j] := a[j], a[i];
  }

  /** Any two time-ordered arrangements of the same entries agree on the
      sequence of timestamps, so sorting determines everything but the
      order among entries with equal timestamps. */
  lemma {:induction false} SortedTimesUnique(s: seq<LogEntry>, t: seq<LogEntry>)
    requires SortedByTime(s) && SortedByTime(t)
    requires multiset(s) == multiset(t)
    ensures |s| == |t|
    ensures forall i :: 0 <= i < |s| ==> s[i].ts == t[i].ts
    decreases |s|
  {
    assert |s| == |t| by { assert |s| == |multiset(s)| == |multiset(t)| == |t|; }
    if s != [] {
      var x := s[|s| - 1];
      var y := t[|t| - 1];
      var s' := s[..|s| - 1];
      assert s == s' + [x];
      var k :| 0 <= k < |t| && t[k] == x by { assert x in multiset(t); }
      assert y.ts <= x.ts by { assert t[k].ts <= t[|t| - 1].ts; }
      assert x.ts <= y.ts by {
        assert y in multiset(s);
        var m :| 0 <= m < |s| && s[m] == y;
        assert s[m].ts <= s[|s| - 1].ts;
      }
      var t2 := ExchangeLast(t, k);
      Cancel(s', t2, x);
      SortedTimesUnique(s', t2);
    }
  }

  /** Dropping the last entry of a sorted list after copying it over an
      entry `t[k]` with the same timestamp keeps the list sorted and the
      timestamps in place, and removes exactly `t[k]`. */
  lemma ExchangeLast(t: seq<LogEntry>, k: int) returns (t2: seq<LogEntry>)
    requires SortedByTime(t)
    requires 0 <= k < |t| && t[k].ts == t[|t| - 1].ts
    ensures |t2| == |t| - 1
    ensures forall i :: 0 <= i < |t2| ==> t2[i].ts == t[i].ts
    ensures SortedByTime(t2)
    ensures multiset(t2) + multiset{t[k]} == multiset(t)
  {
    var t' := t[..|t| - 1];
    assert t == t' + [t[|t| - 1]];
    if k == |t| - 1 {
      t2 := t';
    } else {
      t2 := t'[k := t[|t| - 1]];
      assert multiset(t2) == multiset(t') - multiset{t[k]} + multiset{t[|t| - 1]};
    }
  }

  lemma Cancel(a: seq<LogEntry>, b: seq<LogEntry>, x: LogEntry)
    requires multiset(a) + multiset{x} == multiset(b) + multiset{x}
    ensures multiset(a) == multiset(b)
  {
    assert multiset(a) == multiset(a) + multiset{x} - multiset{x};
    assert multiset(b) == multiset(b) + multiset{x} - multiset{x};
  }
}
