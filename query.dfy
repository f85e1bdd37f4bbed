/** The filter value of the query language and its algebra: matching an
    entry against a filter, the empty filter, the filter the legacy flags
    build, and merging a parsed query into the flag filter. */
module Query {
  import opened Types
  import opened Text

  /** A query filter. Every field left at its zero value (`""`, `None`,
      `[]`) is unset. When `anyOf` (Go's `Or`) is non-empty the filter is a
      disjunction of its branches and the other fields do not take part in
      matching. */
  datatype Filters = Filters(
    level: string,
    search: string,
    after: Option<int>,
    before: Option<int>,
    anyOf: seq<Filters>,
    levelIn: seq<string>)

  const Empty := Filters("", "", None, None, [], [])

  // ---------------------------------------------------------------------
  // Matching

  predicate LevelInOk(e: LogEntry, levels: seq<string>) {
    |levels| == 0 || exists l :: l in levels && EqualFold(e.level, l)
  }

  predicate LevelOk(e: LogEntry, level: string) {
    level == "" || EqualFold(e.level, level)
  }

  /** `after` is inclusive, `before` exclusive: the window is `[after, before)`. */
  predicate AfterOk(e: LogEntry, after: Option<int>) {
    after.None? || after.value <= e.ts
  }

  predicate BeforeOk(e: LogEntry, before: Option<int>) {
    before.None? || e.ts < before.value
  }

  predicate SearchOk(e: LogEntry, search: string) {
    search == "" || Contains(ToLower(e.message), ToLower(search))
  }

  /** The conjunction of the AND fields. */
  predicate MatchesAll(e: LogEntry, f: Filters) {
    LevelInOk(e, f.levelIn) && LevelOk(e, f.level) && AfterOk(e, f.after)
    && BeforeOk(e, f.before) && SearchOk(e, f.search)
  }

  /** `MatchesFilters`: a disjunction when branches are present, otherwise
      the conjunction of the set fields. */
  predicate Matches(e: LogEntry, f: Filters)
    decreases f
  {
    if |f.anyOf| > 0 then exists i :: 0 <= i < |f.anyOf| && Matches(e, f.anyOf[i])
    else MatchesAll(e, f)
  }

  /** The matching predicate as a function value, for selecting entries. */
  function MatchingF(f: Filters): LogEntry -> bool {
    e => Matches(e, f)
  }

  /** `isEmptyFilters`. */
  predicate IsEmpty(f: Filters) {
    f.level == "" && f.search == "" && f.after.None? && f.before.None?
    && |f.levelIn| == 0 && |f.anyOf| == 0
  }

  /** The empty filter is the only empty one, and it matches every entry. */
  lemma EmptyMatchesAll(f: Filters, e: LogEntry)
    requires IsEmpty(f)
    ensures f == Empty && Matches(e, f)
  {
  }

  /** A disjunction matches exactly when one of its branches does, whatever
      its other fields hold. */
  lemma MatchesOr(e: LogEntry, f: Filters)
    requires |f.anyOf| > 0
    ensures Matches(e, f) <==> exists g :: g in f.anyOf && Matches(e, g)
  {
    if exists g :: g in f.anyOf && Matches(e, g) {
      var g :| g in f.anyOf && Matches(e, g);
      var i :| 0 <= i < |f.anyOf| && f.anyOf[i] == g;
    }
  }

  /** `BuildFilters`: the filter of the `--level`, `--since` and `--search`
      flags. */
  function BuildFilters(level: string, cutoff: Option<int>, search: string): (f: Filters)
    ensures f.anyOf == [] && f.levelIn == [] && f.before.None?
    ensures forall e :: Matches(e, f) <==>
      LevelOk(e, level) && AfterOk(e, cutoff) && SearchOk(e, search)
  {
    Filters(level, search, cutoff, None, [], [])
  }

  // ---------------------------------------------------------------------
  // Merging

  const LevelConflict := "conflicting level filters"
  const SearchConflict := "conflicting search filters"

  /** The later of two optional lower bounds; an unset side adopts the
      other's value. */
  function Later(base: Option<int>, extra: Option<int>): (r: Option<int>)
    ensures r.None? <==> base.None? && extra.None?
    ensures r.Some? ==> (r == base || r == extra)
    ensures base.Some? && extra.Some? ==>
      r.value >= base.value && r.value >= extra.value
  {
    if extra.Some? then
      if base.Some? && extra.value > base.value then extra
      else if base.None? then extra
      else base
    else base
  }

  /** The earlier of two optional upper bounds. */
  function Earlier(base: Option<int>, extra: Option<int>): (r: Option<int>)
    ensures r.None? <==> base.None? && extra.None?
    ensures r.Some? ==> (r == base || r == extra)
    ensures base.Some? && extra.Some? ==>
      r.value <= base.value && r.value <= extra.value
  {
    if extra.Some? then
      if base.Some? && extra.value < base.value then extra
      else if base.None? then extra
      else base
    else base
  }

  /** The AND part of `MergeFilters`: starting from `base`, each set field
      of `extra` is folded in, failing on the first conflict. */
  function MergeAnd(base: Filters, extra: Filters): Result<Filters> {
    var m1 :-
      if |extra.levelIn| > 0 then
        if base.level != "" || |base.levelIn| > 0 then Err(LevelConflict)
        else Ok(base.(levelIn := base.levelIn + extra.levelIn))
      else Ok(base);
    var m2 :-
      if extra.level != "" then
        if m1.level != "" && !EqualFold(m1.level, extra.level) then Err(LevelConflict)
        else if |m1.levelIn| > 0 then Err(LevelConflict)
        else Ok(m1.(level := extra.level))
      else Ok(m1);
    var m3 :-
      if extra.search != "" then
        if m2.search != "" && m2.search != extra.search then Err(SearchConflict)
        else Ok(m2.(search := extra.search))
      else Ok(m2);
    Ok(m3.(after := Later(m3.after, extra.after), before := Earlier(m3.before, extra.before)))
  }

  /** `MergeFilters(base, extra)`. A disjunctive `extra` is distributed:
      `base` is merged into each branch in turn, and the first failure
      fails the whole merge. */
  function Merge(base: Filters, extra: Filters): Result<Filters>
    decreases extra, 1
  {
    if |extra.anyOf| > 0 then
      if IsEmpty(base) then Ok(extra)
      else
        var branches :- MergeBranches(base, extra, |extra.anyOf|);
        Ok(Empty.(anyOf := branches))
    else MergeAnd(base, extra)
  }

  /** The merges of `base` into the first `n` branches of `extra`. */
  function MergeBranches(base: Filters, extra: Filters, n: nat): (r: Result<seq<Filters>>)
    requires n <= |extra.anyOf|
    decreases extra, 0, n
    ensures r.Ok? ==> |r.value| == n
  {
    if n == 0 then Ok([])
    else
      var prev :- MergeBranches(base, extra, n - 1);
      var m :- Merge(base, extra.anyOf[n - 1]);
      Ok(prev + [m])
  }

  /** `MergeFilters`: proved to compute `Merge`. */
  method MergeFilters(base: Filters, extra: Filters) returns (r: Result<Filters>)
    ensures r == Merge(base, extra)
    decreases extra
  {
    if |extra.anyOf| > 0 {
      if IsEmpty(base) {
        return Ok(extra);
      }
      var branches: seq<Filters> := [];
      var i := 0;
      while i < |extra.anyOf|
        invariant 0 <= i <= |extra.anyOf|
        invariant MergeBranches(base, extra, i) == Ok(branches)
      {
        var m := MergeFilters(base, extra.anyOf[i]);
        if m.Err? {
          MergeBranchesErrStays(base, extra, i + 1, |extra.anyOf|);
          return Err(m.msg);
        }
        branches := branches + [m.value];
        i := i + 1;
      }
      return Ok(Empty.(anyOf := branches));
    }
    var merged := base;
    if |extra.levelIn| > 0 {
      if merged.level != "" || |merged.levelIn| > 0 {
        return Err(LevelConflict);
      }
      merged := merged.(levelIn := merged.levelIn + extra.levelIn);
    }
    if extra.level != "" {
      if merged.level != "" && !EqualFold(merged.level, extra.level) {
        return Err(LevelConflict);
      }
      if |merged.levelIn| > 0 {
        return Err(LevelConflict);
      }
      merged := merged.(level := extra.level);
    }
    if extra.search != "" {
      if merged.search != "" && merged.search != extra.search {
        return Err(SearchConflict);
      }
      merged := merged.(search := extra.search);
    }
    if extra.after.Some? {
      if merged.after.Some? && extra.after.value > merged.after.value {
        merged := merged.(after := extra.after);
      } else if merged.after.None? {
        merged := merged.(after := extra.after);
      }
    }
    if extra.before.Some? {
      if merged.before.Some? && extra.before.value < merged.before.value {
        merged := merged.(before := extra.before);
      } else if merged.before.None? {
        merged := merged.(before := extra.before);
      }
    }
    return Ok(merged);
  }

  lemma {:induction false} MergeBranchesErrStays(base: Filters, extra: Filters, n: nat, m: nat)
    requires n <= m <= |extra.anyOf|
    requires MergeBranches(base, extra, n).Err?
    ensures MergeBranches(base, extra, m) == MergeBranches(base, extra, n)
    decreases m
  {
    if m > n {
      MergeBranchesErrStays(base, extra, n, m - 1);
    }
  }

  lemma {:induction false} MergeBranchesValues(base: Filters, extra: Filters, n: nat)
    requires n <= |extra.anyOf|
    requires MergeBranches(base, extra, n).Ok?
    ensures forall i :: 0 <= i < n ==>
      Merge(base, extra.anyOf[i]).Ok?
      && MergeBranches(base, extra, n).value[i] == Merge(base, extra.anyOf[i]).value
  {
    if n > 0 {
      MergeBranchesValues(base, extra, n - 1);
    }
  }

  lemma {:induction false} MergeBranchesOk(base: Filters, extra: Filters, n: nat)
    requires n <= |extra.anyOf|
    requires forall i :: 0 <= i < n ==> Merge(base, extra.anyOf[i]).Ok?
    ensures MergeBranches(base, extra, n).Ok?
  {
    if n > 0 {
      MergeBranchesOk(base, extra, n - 1);
    }
  }

  // ---------------------------------------------------------------------
  // Properties of merging

  /** Which AND merges fail: a second `levelIn`, or a `levelIn` next to a
      `level`; two levels that differ ignoring case; two different
      searches. */
  lemma MergeAndConflicts(base: Filters, extra: Filters)
    requires extra.anyOf == []
    ensures Merge(base, extra).Err? <==>
      (|extra.levelIn| > 0 && (base.level != "" || |base.levelIn| > 0))
      || (extra.level != "" && base.level != "" && !EqualFold(base.level, extra.level))
      || (extra.level != "" && |base.levelIn| + |extra.levelIn| > 0)
      || (extra.search != "" && base.search != "" && base.search != extra.search)
    ensures Merge(base, extra).Err? ==>
      Merge(base, extra).msg in {LevelConflict, SearchConflict}
  {
  }

  /** A successful AND merge keeps the later `after` and the earlier
      `before`; an unset side adopts the other's bound. */
  lemma MergeWindow(base: Filters, extra: Filters)
    requires extra.anyOf == [] && Merge(base, extra).Ok?
    ensures Merge(base, extra).value.after == Later(base.after, extra.after)
    ensures Merge(base, extra).value.before == Earlier(base.before, extra.before)
    ensures Merge(base, extra).value.anyOf == base.anyOf
  {
    assert Merge(base, extra) == MergeAnd(base, extra);
  }

  /** Merging nothing changes nothing. */
  lemma MergeEmptyExtra(base: Filters)
    ensures Merge(base, Empty) == Ok(base)
  {
  }

  /** A disjunctive `extra` merged into a non-empty base gives a
      disjunction of the same length whose `i`-th branch is `base` merged
      into the `i`-th branch of `extra`. */
  lemma MergeOrShape(base: Filters, extra: Filters)
    requires |extra.anyOf| > 0 && !IsEmpty(base)
    ensures Merge(base, extra).Ok? <==>
      forall i :: 0 <= i < |extra.anyOf| ==> Merge(base, extra.anyOf[i]).Ok?
    ensures Merge(base, extra).Ok? ==>
      var m := Merge(base, extra).value;
      m.level == "" && m.search == "" && m.after.None? && m.before.None? && m.levelIn == []
      && |m.anyOf| == |extra.anyOf|
      && forall i :: 0 <= i < |m.anyOf| ==> m.anyOf[i] == Merge(base, extra.anyOf[i]).value
  {
    var n := |extra.anyOf|;
    if forall i :: 0 <= i < n ==> Merge(base, extra.anyOf[i]).Ok? {
      MergeBranchesOk(base, extra, n);
    }
    if MergeBranches(base, extra, n).Ok? {
      MergeBranchesValues(base, extra, n);
    }
  }

  /** Soundness of merging into a conjunctive base (what the flag filter
      always is): the merged filter matches exactly the entries both
      filters match. */
  lemma {:induction false} MergeSound(base: Filters, extra: Filters, e: LogEntry)
    requires base.anyOf == []
    requires Merge(base, extra).Ok?
    ensures Matches(e, Merge(base, extra).value) <==> Matches(e, base) && Matches(e, extra)
    decreases extra
  {
    var m := Merge(base, extra).value;
    if |extra.anyOf| > 0 {
      if IsEmpty(base) {
        EmptyMatchesAll(base, e);
      } else {
        MergeOrShape(base, extra);
        forall i | 0 <= i < |extra.anyOf|
          ensures Matches(e, m.anyOf[i]) <==> Matches(e, base) && Matches(e, extra.anyOf[i])
        {
          MergeSound(base, extra.anyOf[i], e);
        }
        MatchesOr(e, m);
        MatchesOr(e, extra);
        if Matches(e, m) {
          var i :| 0 <= i < |m.anyOf| && Matches(e, m.anyOf[i]);
        }
        if Matches(e, base) && Matches(e, extra) {
          var i :| 0 <= i < |extra.anyOf| && Matches(e, extra.anyOf[i]);
          assert Matches(e, m.anyOf[i]);
        }
      }
    } else {
      MergeWindow(base, extra);
    }
  }

  /** A conjunctive filter that does not set both `level` and `levelIn`,
      the shape every filter built from flags has. */
  predicate Conjunctive(f: Filters) {
    f.anyOf == [] && !(f.level != "" && |f.levelIn| > 0)
  }

  /** For such filters the order of a merge does not matter: both orders
      succeed or both fail, and the results match the same entries. */
  lemma MergeCommutes(a: Filters, b: Filters, e: LogEntry)
    requires Conjunctive(a) && Conjunctive(b)
    ensures Merge(a, b).Ok? <==> Merge(b, a).Ok?
    ensures Merge(a, b).Ok? ==>
      (Matches(e, Merge(a, b).value) <==> Matches(e, Merge(b, a).value))
  {
    MergeAndConflicts(a, b);
    MergeAndConflicts(b, a);
    if Merge(a, b).Ok? {
      MergeSound(a, b, e);
      MergeSound(b, a, e);
    }
  }

  /** Merging a well-formed conjunctive filter into the empty filter gives
      it back unchanged. */
  lemma MergeIntoEmpty(extra: Filters)
    requires Conjunctive(extra)
    ensures Merge(Empty, extra) == Ok(extra)
  {
    assert Empty.levelIn + extra.levelIn == extra.levelIn;
  }

  /** A disjunctive `base` keeps its branches through an AND merge, so the
      AND fields of `extra` take no part in matching the result. */
  lemma MergeKeepsBaseOr(base: Filters, extra: Filters, e: LogEntry)
    requires |base.anyOf| > 0 && extra.anyOf == []
    requires Merge(base, extra).Ok?
    ensures Merge(base, extra).value.anyOf == base.anyOf
    ensures Matches(e, Merge(base, extra).value) <==> Matches(e, base)
  {
    MergeWindow(base, extra);
    MatchesOr(e, base);
    MatchesOr(e, Merge(base, extra).value);
  }
}
