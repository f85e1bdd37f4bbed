/** Queries written in the query language's own syntax parse back to the
    filters they describe: a query is rendered from OR groups of terms
    (`level=X`, `level in (A,B)`, `search~T`), and `Parse` of the rendered
    text gives one conjunctive filter per group. */
module QueryRoundTrip {
  import opened Types
  import opened Text
  import opened Query
  import opened QueryParse

  /** One term of a rendered query. */
  datatype Term =
    | LevelIs(level: string)
    | LevelAmong(levels: seq<string>)
    | SearchFor(text: string)

  /** A value the renderer can write without quoting. */
  predicate Bare(w: string) {
    w != "" && NoSpace(w) && Plain(w)
  }

  predicate ValidTerm(t: Term) {
    match t
    case LevelIs(w) => Bare(w) && '~' !in w
    case LevelAmong(ws) => |ws| > 0 && forall w :: w in ws ==> Bare(w) && ',' !in w
    case SearchFor(w) => Bare(w)
  }

  /** An AND group: a non-empty sequence of valid terms. */
  predicate ValidGroup(ts: seq<Term>) {
    |ts| > 0 && forall t :: t in ts ==> ValidTerm(t)
  }

  predicate ValidQuery(gs: seq<seq<Term>>) {
    |gs| > 0 && forall g :: g in gs ==> ValidGroup(g)
  }

  function ListText(ws: seq<string>): string {
    "(" + Join(ws, ",") + ")"
  }

  /** The tokens a term is written as. */
  function Render(t: Term): seq<string> {
    match t
    case LevelIs(w) => ["level=" + w]
    case LevelAmong(ws) => ["level", "in", ListText(ws)]
    case SearchFor(w) => ["search~" + w]
  }

  /** The single token a term becomes once `k in v` triples are fused. */
  function Fused(t: Term): string {
    match t
    case LevelIs(w) => "level=" + w
    case LevelAmong(ws) => "level" + " in " + ListText(ws)
    case SearchFor(w) => "search~" + w
  }

  /** What a term asks of its group's filter. */
  function ClauseFor(t: Term): Clause {
    match t
    case LevelIs(w) => SetLevel(w)
    case LevelAmong(ws) => AddLevels(ws)
    case SearchFor(w) => SetSearch(w)
  }

  function RenderGroup(ts: seq<Term>): seq<string> {
    if ts == [] then [] else Render(ts[0]) + RenderGroup(ts[1..])
  }

  /** The groups joined by `OR` tokens. */
  function RenderQuery(gs: seq<seq<Term>>): seq<string>
    requires |gs| > 0
  {
    if |gs| == 1 then RenderGroup(gs[0])
    else RenderGroup(gs[0]) + ["OR"] + RenderQuery(gs[1..])
  }

  function FusedGroup(ts: seq<Term>): seq<string> {
    seq(|ts|, i requires 0 <= i < |ts| => Fused(ts[i]))
  }

  /** The filter a group of terms describes: its clauses applied in order. */
  function FilterOf(ts: seq<Term>): (f: Filters)
    ensures f.anyOf == []
  {
    if ts == [] then Empty else Apply(FilterOf(ts[..|ts| - 1]), ClauseFor(ts[|ts| - 1]))
  }

  /** The filter a whole query describes. */
  function QueryFilter(gs: seq<seq<Term>>): Filters
    requires |gs| > 0
  {
    if |gs| == 1 then FilterOf(gs[0])
    else Empty.(anyOf := seq(|gs|, i requires 0 <= i < |gs| => FilterOf(gs[i])))
  }

  // ---------------------------------------------------------------------
  // Each term parses to its clause

  lemma LowerKeys()
    ensures ToLower("level") == "level" && ToLower("search") == "search"
  {
    assert ToLower("level") == "level" by {
      var l := ToLower("level");
      assert l[0] == 'l' && l[1] == 'e' && l[2] == 'v' && l[3] == 'e' && l[4] == 'l';
    }
    assert ToLower("search") == "search" by {
      var l := ToLower("search");
      assert l[0] == 's' && l[1] == 'e' && l[2] == 'a' && l[3] == 'r' && l[4] == 'c' && l[5] == 'h';
    }
  }

  lemma NoSpaceKeys()
    ensures NoSpace("level") && NoSpace("search")
  {
  }

  lemma ListTextNoSpace(ws: seq<string>)
    requires forall w :: w in ws ==> Bare(w)
    ensures NoSpace(ListText(ws))
  {
    JoinNoSpace(ws, ",");
    NoSpaceAppend("(", Join(ws, ","));
    NoSpaceAppend("(" + Join(ws, ","), ")");
  }

  /** Every valid term's fused token parses to the term's clause. */
  lemma TermClause(env: Env, t: Term)
    requires ValidTerm(t)
    ensures ClauseOf(env, Fused(t)) == Ok(ClauseFor(t))
  {
    LowerKeys();
    NoSpaceKeys();
    match t
    case LevelIs(w) =>
      assert "level=" + w == "level" + "=" + w;
      SplitTokenEq("level", w);
      TrimQuotesKeeps(w);
    case SearchFor(w) =>
      assert "search~" + w == "search" + "~" + w;
      SplitTokenMatch("search", w);
      TrimQuotesKeeps(w);
    case LevelAmong(ws) =>
      ListTextNoSpace(ws);
      SplitTokenIn("level", ListText(ws));
      assert forall w :: w in ws ==> ListWord(w);
      InListRoundTrip(ws);
  }

  // ---------------------------------------------------------------------
  // Rendered tokens regroup into fused groups

  lemma NotTwoLong(x: string, y: string)
    requires |x| != 2 && |y| == 2
    ensures !EqualFold(x, y)
  {
    assert |ToUpper(x)| != |ToUpper(y)|;
  }

  /** No rendered term starts with a token `in` or `OR`. */
  lemma RenderHead(t: Term)
    ensures |Render(t)| > 0 && !EqualFold(Render(t)[0], "in") && !IsOr(Render(t)[0])
  {
    NotTwoLong(Render(t)[0], "in");
    NotTwoLong(Render(t)[0], "OR");
  }

  /** One rendered term, followed by anything but `in`, adds its fused
      token to the current group. */
  lemma TermFuses(t: Term, tail: seq<string>, cur: seq<string>)
    requires tail == [] || !EqualFold(tail[0], "in")
    ensures GroupsFrom(Render(t) + tail, cur) == GroupsFrom(tail, cur + [Fused(t)])
  {
    var s := Render(t) + tail;
    RenderHead(t);
    assert s[0] == Render(t)[0];
    match t
    case LevelAmong(ws) =>
      assert s[1] == "in";
      assert EqualFold(s[1], "in");
      assert s[3..] == tail;
    case LevelIs(w) =>
      assert s[1..] == tail;
      assert 1 < |s| ==> s[1] == tail[0];
    case SearchFor(w) =>
      assert s[1..] == tail;
      assert 1 < |s| ==> s[1] == tail[0];
  }

  lemma {:induction false} RenderGroupFuses(ts: seq<Term>, rest: seq<string>, cur: seq<string>)
    requires rest == [] || !EqualFold(rest[0], "in")
    ensures GroupsFrom(RenderGroup(ts) + rest, cur) == GroupsFrom(rest, cur + FusedGroup(ts))
  {
    if ts == [] {
      assert RenderGroup(ts) + rest == rest;
      assert cur + FusedGroup(ts) == cur;
    } else {
      var t := ts[0];
      var tail := RenderGroup(ts[1..]) + rest;
      assert RenderGroup(ts) + rest == Render(t) + tail;
      if ts[1..] != [] {
        RenderHead(ts[1..][0]);
        assert tail[0] == Render(ts[1..][0])[0];
      } else {
        assert tail == rest;
      }
      TermFuses(t, tail, cur);
      RenderGroupFuses(ts[1..], rest, cur + [Fused(t)]);
      assert cur + [Fused(t)] + FusedGroup(ts[1..]) == cur + FusedGroup(ts);
    }
  }

  lemma OrNotIn()
    ensures !EqualFold("OR", "in") && IsOr("OR")
  {
    var u := ToUpper("in");
    assert u[0] == 'I';
  }

  /** The OR groups of a rendered query are its groups' fused tokens. */
  lemma {:induction false} RenderQueryGroups(gs: seq<seq<Term>>)
    requires ValidQuery(gs)
    ensures GroupsOf(RenderQuery(gs)) == seq(|gs|, i requires 0 <= i < |gs| => FusedGroup(gs[i]))
  {
    assert gs[0] in gs;
    if |gs| == 1 {
      RenderGroupFuses(gs[0], [], []);
      assert RenderGroup(gs[0]) + [] == RenderGroup(gs[0]);
      assert [] + FusedGroup(gs[0]) == FusedGroup(gs[0]);
    } else {
      var rest := RenderQuery(gs[1..]);
      OrNotIn();
      RenderGroupFuses(gs[0], ["OR"] + rest, []);
      assert RenderGroup(gs[0]) + ["OR"] + rest == RenderGroup(gs[0]) + (["OR"] + rest);
      assert [] + FusedGroup(gs[0]) == FusedGroup(gs[0]);
      assert (["OR"] + rest)[1..] == rest;
      assert forall g :: g in gs[1..] ==> g in gs;
      RenderQueryGroups(gs[1..]);
    }
  }

  // ---------------------------------------------------------------------
  // Rendered text tokenizes to the rendered tokens

  lemma PlainAppend(a: string, b: string)
    requires Plain(a) && Plain(b)
    ensures Plain(a + b)
  {
    assert forall i :: |a| <= i < |a + b| ==> (a + b)[i] == b[i - |a|];
  }

  lemma {:induction false} PlainJoin(ws: seq<string>, sep: string)
    requires Plain(sep) && forall w :: w in ws ==> Plain(w)
    ensures Plain(Join(ws, sep))
  {
    if |ws| > 1 {
      assert forall w :: w in ws[1..] ==> w in ws;
      PlainJoin(ws[1..], sep);
      assert ws[0] in ws;
      PlainAppend(ws[0], sep);
      PlainAppend(ws[0] + sep, Join(ws[1..], sep));
    } else if |ws| == 1 {
      assert ws[0] in ws;
    }
  }

  predicate Tokenizable(ts: seq<string>) {
    forall w :: w in ts ==> w != "" && Plain(w)
  }

  lemma RenderPlain(t: Term)
    requires ValidTerm(t)
    ensures Tokenizable(Render(t))
  {
    match t
    case LevelIs(w) => PlainAppend("level=", w);
    case SearchFor(w) => PlainAppend("search~", w);
    case LevelAmong(ws) =>
      PlainJoin(ws, ",");
      PlainAppend("(", Join(ws, ","));
      PlainAppend("(" + Join(ws, ","), ")");
  }

  lemma {:induction false} RenderGroupPlain(ts: seq<Term>)
    requires forall t :: t in ts ==> ValidTerm(t)
    ensures Tokenizable(RenderGroup(ts))
  {
    if ts != [] {
      RenderPlain(ts[0]);
      assert forall t :: t in ts[1..] ==> t in ts;
      RenderGroupPlain(ts[1..]);
    }
  }

  lemma {:induction false} RenderQueryPlain(gs: seq<seq<Term>>)
    requires ValidQuery(gs)
    ensures Tokenizable(RenderQuery(gs))
  {
    assert gs[0] in gs;
    RenderGroupPlain(gs[0]);
    if |gs| > 1 {
      assert forall g :: g in gs[1..] ==> g in gs;
      RenderQueryPlain(gs[1..]);
      TokenizableOr(RenderGroup(gs[0]), RenderQuery(gs[1..]));
    }
  }

  /** Two tokenizable groups joined by `OR` stay tokenizable. */
  lemma TokenizableOr(a: seq<string>, b: seq<string>)
    requires Tokenizable(a) && Tokenizable(b)
    ensures Tokenizable(a + ["OR"] + b)
  {
    assert Plain("OR") by {
      assert forall i :: 0 <= i < 2 ==> "OR"[i] == 'O' || "OR"[i] == 'R';
    }
  }

  // ---------------------------------------------------------------------
  // Groups fold to their filters

  function OkClauses(ts: seq<Term>): seq<Result<Clause>> {
    seq(|ts|, i requires 0 <= i < |ts| => Ok(ClauseFor(ts[i])))
  }

  lemma {:induction false} FoldOkClauses(ts: seq<Term>)
    ensures Fold(OkClauses(ts)) == Ok(FilterOf(ts))
  {
    if ts != [] {
      assert OkClauses(ts)[..|ts| - 1] == OkClauses(ts[..|ts| - 1]);
      FoldOkClauses(ts[..|ts| - 1]);
    }
  }

  lemma GroupOfFused(env: Env, ts: seq<Term>)
    requires forall t :: t in ts ==> ValidTerm(t)
    ensures GroupOf(env, FusedGroup(ts)) == Ok(FilterOf(ts))
  {
    forall i | 0 <= i < |ts|
      ensures ClauseOf(env, FusedGroup(ts)[i]) == Ok(ClauseFor(ts[i]))
    {
      assert ts[i] in ts;
      TermClause(env, ts[i]);
    }
    assert ClausesOf(env, FusedGroup(ts)) == OkClauses(ts);
    FoldOkClauses(ts);
  }

  // ---------------------------------------------------------------------
  // The round trip

  /** A query rendered from valid OR groups of terms, with single spaces
      between tokens, parses to the filter those groups describe: one
      group gives its conjunctive filter, several give a disjunction of
      them in order. */
  lemma ParseRoundTrip(env: Env, gs: seq<seq<Term>>)
    requires ValidQuery(gs)
    ensures ParseOf(env, Join(RenderQuery(gs), " ")) == Ok(QueryFilter(gs))
  {
    RenderQueryPlain(gs);
    TokensOfWords(RenderQuery(gs));
    RenderQueryGroups(gs);
    FusedGroupsParse(env, gs);
  }

  /** The fused groups of a query parse to its filter. */
  lemma FusedGroupsParse(env: Env, gs: seq<seq<Term>>)
    requires ValidQuery(gs)
    ensures ParseGroups(env, seq(|gs|, i requires 0 <= i < |gs| => FusedGroup(gs[i]))) == Ok(QueryFilter(gs))
  {
    var groups := seq(|gs|, i requires 0 <= i < |gs| => FusedGroup(gs[i]));
    forall i | 0 <= i < |gs|
      ensures GroupOf(env, groups[i]) == Ok(FilterOf(gs[i]))
    {
      assert gs[i] in gs;
      GroupOfFused(env, gs[i]);
    }
    if |gs| > 1 {
      var rs := GroupResults(env, groups);
      CollectValues(rs);
      assert Collect(rs).value == seq(|gs|, i requires 0 <= i < |gs| => FilterOf(gs[i]));
    }
  }

  /** A list written without blanks, `level in (A,B)`, gives the level
      list. */
  lemma CompactListAccepted(env: Env)
    ensures ParseOf(env, "level in (A,B)") == Ok(Empty.(levelIn := ["A", "B"]))
  {
    var gs := [[LevelAmong(["A", "B"])]];
    CompactListText(gs);
    ParseRoundTrip(env, gs);
    assert QueryFilter(gs) == Empty.(levelIn := ["A", "B"]) by {
      assert gs[0][..0] == [];
    }
  }

  lemma CompactListText(gs: seq<seq<Term>>)
    requires gs == [[LevelAmong(["A", "B"])]]
    ensures ValidQuery(gs)
    ensures Join(RenderQuery(gs), " ") == "level in (A,B)"
  {
    var ts := ["level", "in", "(A,B)"];
    assert ListText(["A", "B"]) == "(A,B)" by {
      assert ["A", "B"][1..] == ["B"];
    }
    assert gs[0][1..] == [];
    assert RenderQuery(gs) == ts;
    assert ts[1..] == ["in", "(A,B)"];
    assert ts[1..][1..] == ["(A,B)"];
  }

  /** A list with a blank after its comma is cut apart by the tokenizer:
      `level in (A, B)` leaves the token `B)` with no operator, so the
      query is rejected. */
  lemma SpacedListRejected(env: Env)
    ensures ParseOf(env, "level in (A, B)").Err?
  {
    var group := SpacedListGroups();
    assert ClauseOf(env, group[1]).Err? by {
      SplitTokenNoOperator("B)");
    }
    GroupOkIff(env, group);
  }

  /** The tokens of `level in (A, B)` and the one group they form. */
  lemma SpacedListGroups() returns (group: seq<string>)
    ensures group == ["level in (A,", "B)"]
    ensures TokensOf("level in (A, B)").Ok?
    ensures GroupsOf(TokensOf("level in (A, B)").value) == [group]
  {
    group := ["level in (A,", "B)"];
    SpacedListTokens();
    SpacedListFuses();
    SpacedListCloses();
  }

  lemma SpacedListTokens()
    ensures TokensOf("level in (A, B)") == Ok(["level", "in", "(A,", "B)"])
  {
    var ws := ["level", "in", "(A,", "B)"];
    assert Join(ws, " ") == "level in (A, B)" by {
      assert ws[1..] == ["in", "(A,", "B)"];
      assert ws[1..][1..] == ["(A,", "B)"];
      assert ws[1..][1..][1..] == ["B)"];
    }
    TokensOfWords(ws);
  }

  /** `level in (A,` fuses into one token. */
  lemma SpacedListFuses()
    ensures GroupsFrom(["level", "in", "(A,", "B)"], []) == GroupsFrom(["B)"], ["level in (A,"])
  {
    var ws := ["level", "in", "(A,", "B)"];
    assert !EqualFold(ws[0], "OR") by {
      NotTwoLong(ws[0], "OR");
    }
    assert EqualFold(ws[1], "in");
    assert ws[0] + " in " + ws[2] == "level in (A,";
    assert ws[3..] == ["B)"];
    assert [] + ["level in (A,"] == ["level in (A,"];
  }

  /** `B)` is not `OR`, so it joins the same group. */
  lemma SpacedListCloses()
    ensures GroupsFrom(["B)"], ["level in (A,"]) == GroupsFrom([], ["level in (A,", "B)"])
  {
    var rest := ["B)"];
    assert !EqualFold(rest[0], "OR") by {
      assert ToUpper(rest[0])[1] == ')';
    }
    assert rest[1..] == [];
    assert ["level in (A,"] + [rest[0]] == ["level in (A,", "B)"];
  }
}
