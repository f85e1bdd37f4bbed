/** The pure helpers of the command-line front end: count formatting, the
    query plan printed by `-explain`, the list of snapshot sources, the
    `-format` flag and the run header. */
module Cli {
  import opened Types
  import opened Seqs
  import opened Text
  import Query
  import Ingest

  // ---------------------------------------------------------------------
  // Counts with thousands separators

  function Digit(d: int): (c: char)
    requires 0 <= d < 10
    ensures '0' <= c <= '9'
  {
    ('0' as int + d) as char
  }

  /** The decimal digits of `n`, most significant first. */
  function Digits(n: nat): (r: string)
    ensures 1 <= |r|
    ensures forall i :: 0 <= i < |r| ==> '0' <= r[i] <= '9'
    ensures n >= 10 ==> |r| >= 2
    ensures n >= 100 ==> |r| >= 3
    ensures n >= 1000 ==> |r| >= 4
  {
    if n < 10 then [Digit(n)] else Digits(n / 10) + [Digit(n % 10)]
  }

  /** `strconv.Itoa`. */
  function Itoa(n: int): string {
    if n < 0 then "-" + Digits(-n) else Digits(n)
  }

  /** A run of characters with a comma put before every complete group of
      three counted from the right. */
  function Grouped(s: string): string {
    if |s| <= 3 then s else Grouped(s[..|s| - 3]) + "," + s[|s| - 3..]
  }

  function FormatCountOf(n: int): string {
    if n < 1000 then Itoa(n) else Grouped(Itoa(n))
  }

  /** `formatCount`: the decimal text of `n`, with commas between groups
      of three digits from 1000 on. */
  method FormatCount(n: int) returns (r: string)
    ensures r == FormatCountOf(n)
  {
    var s := Itoa(n);
    if n < 1000 {
      return s;
    }
    var pre := |s| % 3;
    if pre == 0 {
      pre := 3;
    }
    r := s[..pre];
    var i := pre;
    ghost var left: nat := (|s| - pre) / 3;
    assert |s| - pre == 3 * left;
    while i < |s|
      invariant pre <= i <= |s|
      invariant |s| - i == 3 * left
      invariant r == Grouped(s[..i])
    {
      GroupStep(s, i);
      r := r + "," + s[i..i + 3];
      i := i + 3;
      left := left - 1;
    }
    assert s[..|s|] == s;
  }

  /** Three more characters after a non-empty prefix add one group. */
  lemma GroupStep(s: string, i: nat)
    requires 1 <= i && i + 3 <= |s|
    ensures Grouped(s[..i + 3]) == Grouped(s[..i]) + "," + s[i..i + 3]
  {
    var t := s[..i + 3];
    assert t[..|t| - 3] == s[..i];
    assert t[|t| - 3..] == s[i..i + 3];
  }

  function NotComma(): char -> bool {
    (c: char) => c != ','
  }

  /** Grouping only inserts commas: dropping them gives the input back. */
  lemma {:induction false} GroupedUncomma(s: string)
    requires ',' !in s
    ensures Select(Grouped(s), NotComma()) == s
    decreases |s|
  {
    if |s| <= 3 {
      SelectAll(s, NotComma());
    } else {
      var head := s[..|s| - 3];
      var tail := s[|s| - 3..];
      assert s == head + tail;
      assert ',' !in head && ',' !in tail;
      GroupedUncomma(head);
      var g := Grouped(head);
      assert Grouped(s) == g + ([','] + tail);
      assert Select([','] + tail, NotComma()) == tail by {
        SelectAppend([','], tail, NotComma());
        SelectAll(tail, NotComma());
        assert [','][..0] == [];
      }
      SelectAppend(g, [','] + tail, NotComma());
    }
  }

  /** A comma sits exactly at every fourth position counted from the end,
      so the leading group holds one to three characters. */
  lemma {:induction false} GroupedCommas(s: string)
    requires s != [] && ',' !in s
    ensures |Grouped(s)| % 4 != 0
    ensures forall i :: 0 <= i < |Grouped(s)| ==>
              (Grouped(s)[i] == ',' <==> (|Grouped(s)| - i) % 4 == 0)
    decreases |s|
  {
    if |s| > 3 {
      var head := s[..|s| - 3];
      var tail := s[|s| - 3..];
      assert s == head + tail;
      assert ',' !in head && ',' !in tail;
      GroupedCommas(head);
      var g := Grouped(head);
      var r := Grouped(s);
      assert r == g + [','] + tail;
      assert |r| == |g| + 4;
      forall i | 0 <= i < |r|
        ensures r[i] == ',' <==> (|r| - i) % 4 == 0
      {
        if i < |g| {
          assert r[i] == g[i];
          ModShift(|g| - i);
        } else if i > |g| {
          assert r[i] == tail[i - |g| - 1];
        }
      }
    }
  }

  lemma ModShift(k: int)
    ensures (k + 4) % 4 == k % 4
  {
  }

  /** Below 1000 the count is the plain decimal. From 1000 on, removing the
      commas gives the plain decimal, and the commas sit before every
      group of three digits counted from the right. */
  lemma FormatCountMeaning(n: int)
    ensures n < 1000 ==> FormatCountOf(n) == Itoa(n)
    ensures Select(FormatCountOf(n), NotComma()) == Itoa(n)
    ensures n >= 1000 ==> ',' in FormatCountOf(n)
    ensures n >= 1000 ==> |FormatCountOf(n)| % 4 != 0
    ensures n >= 1000 ==>
              forall i :: 0 <= i < |FormatCountOf(n)| ==>
                (FormatCountOf(n)[i] == ',' <==> (|FormatCountOf(n)| - i) % 4 == 0)
  {
    var s := Itoa(n);
    ItoaNoComma(n);
    if n < 1000 {
      SelectAll(s, NotComma());
    } else {
      assert FormatCountOf(n) == Grouped(s);
      GroupedUncomma(s);
      GroupedCommas(s);
      var r := Grouped(s);
      assert |s| >= 4 by { assert s == Digits(n); }
      assert r[|r| - 4] == ',';
    }
  }

  /** Decimal text never holds a comma. */
  lemma ItoaNoComma(n: int)
    ensures Itoa(n) != [] && ',' !in Itoa(n)
  {
    if n < 0 {
      var d := Digits(-n);
      assert Itoa(n) == "-" + d;
      assert forall i :: 1 <= i < |Itoa(n)| ==> Itoa(n)[i] == d[i - 1];
    }
  }

  // ---------------------------------------------------------------------
  // The query plan

  /** One line of the plan `-explain` prints. */
  datatype Step =
    | IndexLevel(level: string)
    | IndexLevelIn(levels: seq<string>)
    | IndexAfter(after: int)
    | ScanAll
    | FilterLevel(level: string)
    | FilterLevelIn(levels: seq<string>)
    | FilterAfter(after: int)
    | FilterBefore(before: int)
    | FilterMessage(search: string)
    | DslParse

  /** Text renderings supplied by the Go library: an instant in RFC 3339
      and a string as a Go quoted literal (`%q`). */
  datatype Printer = Printer(stamp: int -> string, quote: string -> string)

  function StepText(p: Printer, s: Step): string {
    match s
    case IndexLevel(l) => "index(level=" + ToUpper(l) + ")"
    case IndexLevelIn(ls) => "index(level_in=" + Join(ls, ",") + ")"
    case IndexAfter(t) => "index(time>=" + p.stamp(t) + ")"
    case ScanAll => "scan(all)"
    case FilterLevel(l) => "filter(level=" + ToUpper(l) + ")"
    case FilterLevelIn(ls) => "filter(level_in=" + Join(ls, ",") + ")"
    case FilterAfter(t) => "filter(after=" + p.stamp(t) + ")"
    case FilterBefore(t) => "filter(before=" + p.stamp(t) + ")"
    case FilterMessage(q) => "filter(message~" + p.quote(q) + ")"
    case DslParse => "dsl(parse)"
  }

  function Texts(p: Printer, steps: seq<Step>): (r: seq<string>)
    ensures |r| == |steps|
    ensures forall i :: 0 <= i < |steps| ==> r[i] == StepText(p, steps[i])
  {
    seq(|steps|, i requires 0 <= i < |steps| => StepText(p, steps[i]))
  }

  /** How the entries are reached: through the index on the first indexed
      filter present (level, then level list, then lower time bound), or
      by scanning everything. */
  function Access(f: Query.Filters, useIndex: bool): (r: Step)
    ensures r.ScanAll? <==> !useIndex || (f.level == "" && f.levelIn == [] && f.after.None?)
    ensures r.IndexLevel? ==> r.level == f.level != ""
    ensures r.IndexLevelIn? ==> f.level == "" && r.levels == f.levelIn != []
    ensures r.IndexAfter? ==> f.level == "" && f.levelIn == [] && f.after == Some(r.after)
    ensures r.ScanAll? || r.IndexLevel? || r.IndexLevelIn? || r.IndexAfter?
  {
    if !useIndex then ScanAll
    else if f.level != "" then IndexLevel(f.level)
    else if |f.levelIn| > 0 then IndexLevelIn(f.levelIn)
    else if f.after.Some? then IndexAfter(f.after.value)
    else ScanAll
  }

  function When(c: bool, s: Step): seq<Step> {
    if c then [s] else []
  }

  function PlanSteps(f: Query.Filters, queryStr: string, useIndex: bool): seq<Step> {
    [Access(f, useIndex)]
    + When(f.level != "" && !useIndex, FilterLevel(f.level))
    + When(|f.levelIn| > 0, FilterLevelIn(f.levelIn))
    + When(f.after.Some?, FilterAfter(if f.after.Some? then f.after.value else 0))
    + When(f.before.Some?, FilterBefore(if f.before.Some? then f.before.value else 0))
    + When(f.search != "", FilterMessage(f.search))
    + When(queryStr != "", DslParse)
  }

  lemma TextsAppend(p: Printer, a: seq<Step>, b: seq<Step>)
    ensures Texts(p, a + b) == Texts(p, a) + Texts(p, b)
  {
  }

  /** The first line of the plan. */
  method AccessText(p: Printer, f: Query.Filters, useIndex: bool) returns (line: string)
    ensures line == StepText(p, Access(f, useIndex))
  {
    if useIndex {
      if f.level != "" {
        line := "index(level=" + ToUpper(f.level) + ")";
      } else if |f.levelIn| > 0 {
        line := "index(level_in=" + Join(f.levelIn, ",") + ")";
      } else if f.after.Some? {
        line := "index(time>=" + p.stamp(f.after.value) + ")";
      } else {
        line := "scan(all)";
      }
    } else {
      line := "scan(all)";
    }
  }

  /** `buildQueryPlan`: the access line, a line per active filter (level only when not indexed), then the DSL step. */
  method BuildQueryPlan(p: Printer, f: Query.Filters, queryStr: string, useIndex: bool)
    returns (plan: seq<string>)
    ensures plan == Texts(p, PlanSteps(f, queryStr, useIndex))
  {
    var first := AccessText(p, f, useIndex);
    plan := [first];
    ghost var steps := [Access(f, useIndex)];
    assert plan == Texts(p, steps);
    var line := "filter(level=" + ToUpper(f.level) + ")";
    TextsStep(p, plan, steps, f.level != "" && !useIndex, FilterLevel(f.level), line);
    if f.level != "" && !useIndex {
      plan := plan + [line];
    }
    steps := steps + When(f.level != "" && !useIndex, FilterLevel(f.level));
    line := "filter(level_in=" + Join(f.levelIn, ",") + ")";
    TextsStep(p, plan, steps, |f.levelIn| > 0, FilterLevelIn(f.levelIn), line);
    if |f.levelIn| > 0 {
      plan := plan + [line];
    }
    steps := steps + When(|f.levelIn| > 0, FilterLevelIn(f.levelIn));
    var after := if f.after.Some? then f.after.value else 0;
    line := "filter(after=" + p.stamp(after) + ")";
    TextsStep(p, plan, steps, f.after.Some?, FilterAfter(after), line);
    if f.after.Some? {
      plan := plan + [line];
    }
    steps := steps + When(f.after.Some?, FilterAfter(after));
    var before := if f.before.Some? then f.before.value else 0;
    line := "filter(before=" + p.stamp(before) + ")";
    TextsStep(p, plan, steps, f.before.Some?, FilterBefore(before), line);
    if f.before.Some? {
      plan := plan + [line];
    }
    steps := steps + When(f.before.Some?, FilterBefore(before));
    line := "filter(message~" + p.quote(f.search) + ")";
    TextsStep(p, plan, steps, f.search != "", FilterMessage(f.search), line);
    if f.search != "" {
      plan := plan + [line];
    }
    steps := steps + When(f.search != "", FilterMessage(f.search));
    TextsStep(p, plan, steps, queryStr != "", DslParse, "dsl(parse)");
    if queryStr != "" {
      plan := plan + ["dsl(parse)"];
    }
  }

  /** Appending the text of an optional step. */
  lemma TextsStep(p: Printer, plan: seq<string>, steps: seq<Step>, c: bool, step: Step, line: string)
    requires plan == Texts(p, steps)
    requires line == StepText(p, step)
    ensures Texts(p, steps + When(c, step)) == if c then plan + [line] else plan
  {
    TextsAppend(p, steps, When(c, step));
  }

  /** The position of each kind of step in the fixed plan order. */
  function Rank(s: Step): nat {
    match s
    case FilterLevel(_) => 1
    case FilterLevelIn(_) => 2
    case FilterAfter(_) => 3
    case FilterBefore(_) => 4
    case FilterMessage(_) => 5
    case DslParse => 6
    case _ => 0
  }

  /** Each step ranks strictly after the one before it. */
  predicate Ranked(steps: seq<Step>) {
    forall i :: 0 < i < |steps| ==> Rank(steps[i - 1]) < Rank(steps[i])
  }

  /** An optional step of rank `k`. */
  predicate OptionalAt(w: seq<Step>, k: nat) {
    w == [] || (|w| == 1 && Rank(w[0]) == k)
  }

  lemma RankedSnoc(a: seq<Step>, w: seq<Step>, k: nat)
    requires Ranked(a) && a != [] && Rank(a[|a| - 1]) < k
    requires OptionalAt(w, k)
    ensures Ranked(a + w) && a + w != [] && Rank((a + w)[|a + w| - 1]) <= k
  {
    if w == [] {
      assert a + w == a;
    }
  }

  lemma RankedChain(first: Step, w1: seq<Step>, w2: seq<Step>, w3: seq<Step>,
                    w4: seq<Step>, w5: seq<Step>, w6: seq<Step>)
    requires Rank(first) == 0
    requires OptionalAt(w1, 1) && OptionalAt(w2, 2) && OptionalAt(w3, 3)
    requires OptionalAt(w4, 4) && OptionalAt(w5, 5) && OptionalAt(w6, 6)
    ensures Ranked([first] + w1 + w2 + w3 + w4 + w5 + w6)
  {
    RankedSnoc([first], w1, 1);
    RankedSnoc([first] + w1, w2, 2);
    RankedSnoc([first] + w1 + w2, w3, 3);
    RankedSnoc([first] + w1 + w2 + w3, w4, 4);
    RankedSnoc([first] + w1 + w2 + w3 + w4, w5, 5);
    RankedSnoc([first] + w1 + w2 + w3 + w4 + w5, w6, 6);
  }

  /** The steps follow the fixed order access, level, level list, after,
      before, message, query, each at most once. */
  lemma PlanOrder(f: Query.Filters, queryStr: string, useIndex: bool)
    ensures PlanSteps(f, queryStr, useIndex)[0] == Access(f, useIndex)
    ensures Ranked(PlanSteps(f, queryStr, useIndex))
  {
    RankedChain(Access(f, useIndex),
                When(f.level != "" && !useIndex, FilterLevel(f.level)),
                When(|f.levelIn| > 0, FilterLevelIn(f.levelIn)),
                When(f.after.Some?, FilterAfter(if f.after.Some? then f.after.value else 0)),
                When(f.before.Some?, FilterBefore(if f.before.Some? then f.before.value else 0)),
                When(f.search != "", FilterMessage(f.search)),
                When(queryStr != "", DslParse));
  }

  /** The plan's steps after the first, in their parts. */
  lemma PlanParts(f: Query.Filters, queryStr: string, useIndex: bool)
    ensures forall x :: x in PlanSteps(f, queryStr, useIndex) <==>
      || x == Access(f, useIndex)
      || (f.level != "" && !useIndex && x == FilterLevel(f.level))
      || (|f.levelIn| > 0 && x == FilterLevelIn(f.levelIn))
      || (f.after.Some? && x == FilterAfter(f.after.value))
      || (f.before.Some? && x == FilterBefore(f.before.value))
      || (f.search != "" && x == FilterMessage(f.search))
      || (queryStr != "" && x == DslParse)
  {
  }

  /** A level filter step appears only without the index, and then exactly
      when a level is set; each other filter step appears exactly when its
      filter is set, with the filter's value. */
  lemma PlanFilters(f: Query.Filters, queryStr: string, useIndex: bool)
    ensures var steps := PlanSteps(f, queryStr, useIndex);
      && (forall s :: s in steps && s.FilterLevel? ==> !useIndex && f.level != "" && s == FilterLevel(f.level))
      && (f.level != "" && !useIndex ==> FilterLevel(f.level) in steps)
      && (FilterLevelIn(f.levelIn) in steps <==> f.levelIn != [])
      && (forall s :: s in steps && s.FilterAfter? ==> f.after == Some(s.after))
      && (f.after.Some? ==> FilterAfter(f.after.value) in steps)
      && (forall s :: s in steps && s.FilterBefore? ==> f.before == Some(s.before))
      && (f.before.Some? ==> FilterBefore(f.before.value) in steps)
      && (FilterMessage(f.search) in steps <==> f.search != "")
  {
    PlanParts(f, queryStr, useIndex);
  }

  /** `dsl(parse)` is present, and then last, exactly when a query string
      was given. */
  lemma PlanQueryLast(f: Query.Filters, queryStr: string, useIndex: bool)
    ensures var steps := PlanSteps(f, queryStr, useIndex);
      && (DslParse in steps <==> queryStr != "")
      && (steps[|steps| - 1] == DslParse <==> queryStr != "")
  {
    var steps := PlanSteps(f, queryStr, useIndex);
    PlanParts(f, queryStr, useIndex);
    assert steps[|steps| - 1] in steps;
  }

  // ---------------------------------------------------------------------
  // Snapshot sources

  function NonEmpty(): string -> bool {
    (s: string) => s != ""
  }

  /** `snapshotSources`: the snapshot to load, the store to load and the
      input file, in that order, leaving out the ones not given. */
  method SnapshotSources(file: string, loadPath: string, snapshotLoad: string) returns (sources: seq<string>)
    ensures sources == Select([snapshotLoad, loadPath, file], NonEmpty())
  {
    assert [snapshotLoad, loadPath, file] == [snapshotLoad] + [loadPath] + [file];
    SelectAppend([snapshotLoad] + [loadPath], [file], NonEmpty());
    SelectAppend([snapshotLoad], [loadPath], NonEmpty());
    SelectOne(snapshotLoad);
    SelectOne(loadPath);
    SelectOne(file);
    sources := [];
    if snapshotLoad != "" {
      sources := sources + [snapshotLoad];
    }
    if loadPath != "" {
      sources := sources + [loadPath];
    }
    if file != "" {
      sources := sources + [file];
    }
  }

  lemma SelectOne(x: string)
    ensures Select([x], NonEmpty()) == if x != "" then [x] else []
  {
    assert [x][..0] == [];
  }

  lemma SnapshotSourcesMembers(file: string, loadPath: string, snapshotLoad: string)
    ensures |Select([snapshotLoad, loadPath, file], NonEmpty())| <= 3
    ensures forall s :: s in Select([snapshotLoad, loadPath, file], NonEmpty()) <==>
              s != "" && (s == snapshotLoad || s == loadPath || s == file)
  {
    SelectMembers([snapshotLoad, loadPath, file], NonEmpty());
  }

  // ---------------------------------------------------------------------
  // The -format flag

  const FormatError := "expected one of: plain, json, logfmt, auto"

  /** `parseFormat`: the flag value, trimmed and lower-cased, names one of
      the four formats; the empty value means plain text. */
  function ParseFormat(value: string): (r: Result<Ingest.Format>)
    ensures r.Ok? ==> !r.value.Unknown?
    ensures r.Err? ==> r.msg == FormatError
  {
    FormatNamed(ToLower(TrimSpace(value)))
  }

  /** The format a normalised flag value names. */
  function FormatNamed(v: string): (r: Result<Ingest.Format>)
    ensures r.Ok? ==> !r.value.Unknown?
    ensures r.Err? ==> r.msg == FormatError
  {
    if v == "plain" || v == "" then Ok(Ingest.Plain)
    else if v == "json" then Ok(Ingest.Json)
    else if v == "logfmt" then Ok(Ingest.Logfmt)
    else if v == "auto" then Ok(Ingest.Auto)
    else Err(FormatError)
  }

  function FormatName(f: Ingest.Format): string {
    match f
    case Auto => "auto"
    case Plain => "plain"
    case Json => "json"
    case Logfmt => "logfmt"
    case Unknown(name) => name
  }

  lemma LowerLetters(w: string)
    requires forall i :: 0 <= i < |w| ==> 'a' <= w[i] <= 'z'
    ensures ToLower(w) == w
  {
    assert forall i :: 0 <= i < |w| ==> ToLower(w)[i] == w[i];
  }

  /** A word of lower-case letters is its own normal form. */
  lemma LowerWord(w: string)
    requires forall i :: 0 <= i < |w| ==> 'a' <= w[i] <= 'z'
    ensures ToLower(TrimSpace(w)) == w
  {
    TrimLetters(w);
    LowerLetters(w);
  }

  lemma TrimLetters(w: string)
    requires forall i :: 0 <= i < |w| ==> 'a' <= w[i] <= 'z'
    ensures TrimSpace(w) == w
  {
    if w != [] {
      assert !IsSpace(w[0]) && !IsSpace(w[|w| - 1]);
    }
    TrimSpaceOfTrimmed(w);
  }

  /** Every format the flag accepts is named by its own name; the empty
      value gives plain text. */
  lemma ParseFormatNames(f: Ingest.Format)
    requires !f.Unknown?
    ensures ParseFormat(FormatName(f)) == Ok(f)
    ensures ParseFormat("") == Ok(Ingest.Plain)
  {
    LowerWord(FormatName(f));
    LowerWord("");
  }

  /** A format name surrounded by any white space, Unicode spaces such as
      U+00A0 included, still names its format. */
  lemma ParseFormatPadded(f: Ingest.Format, pre: string, post: string)
    requires !f.Unknown?
    requires AllSpace(pre) && AllSpace(post)
    ensures ParseFormat(pre + FormatName(f) + post) == Ok(f)
  {
    var w := FormatName(f);
    PaddedName(f, pre, post);
    ParseFormatNames(f);
    assert ParseFormat(pre + w + post) == ParseFormat(w);
  }

  lemma PaddedName(f: Ingest.Format, pre: string, post: string)
    requires !f.Unknown?
    requires AllSpace(pre) && AllSpace(post)
    ensures TrimSpace(pre + FormatName(f) + post) == TrimSpace(FormatName(f))
  {
    var w := FormatName(f);
    FormatNameLetters(f);
    TrimSpaceAround(pre, w, post);
    TrimLetters(w);
  }

  lemma FormatNameLetters(f: Ingest.Format)
    requires !f.Unknown?
    ensures FormatName(f) != []
    ensures forall i :: 0 <= i < |FormatName(f)| ==> 'a' <= FormatName(f)[i] <= 'z'
  {
  }

  /** Trimming and lower-casing the value first changes nothing, so the
      names are accepted in any mix of case and with surrounding white
      space. */
  lemma ParseFormatNormalised(value: string)
    ensures ParseFormat(ToLower(TrimSpace(value))) == ParseFormat(value)
  {
    NormalFormFixed(value);
    assert ParseFormat(ToLower(TrimSpace(value))) == FormatNamed(ToLower(TrimSpace(value)));
  }

  /** Trimmed, lower-cased text is its own normal form. */
  lemma NormalFormFixed(value: string)
    ensures ToLower(TrimSpace(ToLower(TrimSpace(value)))) == ToLower(TrimSpace(value))
  {
    var t := TrimSpace(value);
    var l := ToLower(t);
    ToLowerTwice(t);
    LowerTrimmed(t);
  }

  /** Lower-casing trimmed text leaves it trimmed. */
  lemma LowerTrimmed(t: string)
    requires t == [] || (!IsSpace(t[0]) && !IsSpace(t[|t| - 1]))
    ensures TrimSpace(ToLower(t)) == ToLower(t)
  {
    var l := ToLower(t);
    ToLowerTwice(t);
    if l != [] {
      assert !IsSpace(l[0]) && !IsSpace(l[|l| - 1]);
    }
    TrimSpaceOfTrimmed(l);
  }

  // ---------------------------------------------------------------------
  // The run header

  function Border(): string {
    "════════════════════════════════════"
  }

  /** `buildRunHeaderTextWithValues`: the banner written before a run's
      entries; the start time and the count of existing entries are the
      caller's readings of the clock and the store. */
  function RunHeaderText(started: string, source: string, dest: string, existing: int): (r: string)
    ensures |r| > |Border()|
  {
    Border() + "\n"
    + "Log ingestion run\n"
    + "Started at : " + started + "\n"
    + "Source     : " + source + "\n"
    + "Destination: " + dest + "\n"
    + "Existing   : " + FormatCountOf(existing) + " entries\n"
    + "Mode       : append (JSONL)\n"
    + Border() + "\n"
  }

  /** `headerText`: a header only when the run writes to a store and asked
      for one. */
  function HeaderText(storePath: string, storeHeader: bool, source: string, started: string, existing: int): (r: string)
    ensures r == "" <==> storePath == "" || !storeHeader
    ensures r != "" ==> r == RunHeaderText(started, source, storePath, existing)
  {
    if storePath == "" || !storeHeader then "" else RunHeaderText(started, source, storePath, existing)
  }
}
