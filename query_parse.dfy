/** The query language parser: the tokenizer with quote handling, the
    split of the token list into OR groups (fusing `k in v` triples), the
    `key op value` split of one token, `in (...)` lists, the fold of one
    group into an AND filter, and `Parse` itself. */
module QueryParse {
  import opened Types
  import opened Text
  import opened Seqs
  import opened Query

  // ---------------------------------------------------------------------
  // Tokenizer

  predicate IsQuote(c: char) {
    c == '"' || c == '\''
  }

  predicate IsBlank(c: char) {
    c == ' ' || c == '\t'
  }

  /** A word the tokenizer passes through unchanged: no blank and no quote. */
  predicate Plain(w: string) {
    forall i :: 0 <= i < |w| ==> !IsBlank(w[i]) && !IsQuote(w[i])
  }

  /** The tokenizer's state: the tokens emitted so far, the token being
      built, and the open quote character if any. */
  datatype TokState = TokState(tokens: seq<string>, buf: string, quote: Option<char>)

  const Start := TokState([], "", None)

  /** One character of input: inside quotes everything but the closing
      quote is kept; outside, a quote opens, a blank ends a non-empty
      token, and anything else is kept. */
  function Step(st: TokState, ch: char): TokState {
    match st.quote
    case Some(q) =>
      if ch == q then st.(quote := None) else st.(buf := st.buf + [ch])
    case None =>
      if IsQuote(ch) then st.(quote := Some(ch))
      else if IsBlank(ch) then
        if |st.buf| > 0 then TokState(st.tokens + [st.buf], "", None) else st
      else st.(buf := st.buf + [ch])
  }

  function RunFrom(st: TokState, input: string): TokState {
    if input == [] then st else Step(RunFrom(st, input[..|input| - 1]), input[|input| - 1])
  }

  /** `tokenize`. */
  function TokensOf(input: string): Result<seq<string>> {
    var st := RunFrom(Start, input);
    if st.quote.Some? then Err("unterminated quote")
    else Ok(st.tokens + (if |st.buf| > 0 then [st.buf] else []))
  }

  method Tokenize(input: string) returns (r: Result<seq<string>>)
    ensures r == TokensOf(input)
  {
    var tokens: seq<string> := [];
    var b := "";
    var inQuote: Option<char> := None;
    var i := 0;
    while i < |input|
      invariant 0 <= i <= |input|
      invariant RunFrom(Start, input[..i]) == TokState(tokens, b, inQuote)
    {
      var ch := input[i];
      assert input[..i + 1][..i] == input[..i];
      if inQuote.Some? {
        if ch == inQuote.value {
          inQuote := None;
        } else {
          b := b + [ch];
        }
      } else if ch == '"' || ch == '\'' {
        inQuote := Some(ch);
      } else if ch == ' ' || ch == '\t' {
        if |b| > 0 {
          tokens := tokens + [b];
          b := "";
        }
      } else {
        b := b + [ch];
      }
      i := i + 1;
    }
    assert input[..i] == input;
    if inQuote.Some? {
      return Err("unterminated quote");
    }
    if |b| > 0 {
      tokens := tokens + [b];
    } else {
      assert tokens + [] == tokens;
    }
    return Ok(tokens);
  }

  lemma {:induction false} RunFromAppend(st: TokState, a: string, b: string)
    ensures RunFrom(st, a + b) == RunFrom(RunFrom(st, a), b)
  {
    if b == [] {
      assert a + b == a;
    } else {
      assert (a + b)[..|a + b| - 1] == a + b[..|b| - 1];
      RunFromAppend(st, a, b[..|b| - 1]);
    }
  }

  /** The tokenizer never emits an empty token. */
  lemma {:induction false} RunKeepsTokensNonEmpty(st: TokState, s: string)
    requires forall t :: t in st.tokens ==> t != ""
    ensures forall t :: t in RunFrom(st, s).tokens ==> t != ""
  {
    if s != [] {
      RunKeepsTokensNonEmpty(st, s[..|s| - 1]);
    }
  }

  lemma TokensNonEmpty(input: string)
    requires TokensOf(input).Ok?
    ensures forall t :: t in TokensOf(input).value ==> t != ""
  {
    RunKeepsTokensNonEmpty(Start, input);
  }

  /** A plain word outside quotes is appended to the current token. */
  lemma {:induction false} RunPlain(st: TokState, w: string)
    requires st.quote.None? && Plain(w)
    ensures RunFrom(st, w) == st.(buf := st.buf + w)
  {
    if w != [] {
      RunPlain(st, w[..|w| - 1]);
      assert st.buf + w[..|w| - 1] + [w[|w| - 1]] == st.buf + w;
    } else {
      assert st.buf + w == st.buf;
    }
  }

  /** Inside a quote every character but the closing quote is kept
      literally, blanks included. */
  lemma {:induction false} RunQuoted(st: TokState, q: char, v: string)
    requires st.quote == Some(q)
    requires q !in v
    ensures RunFrom(st, v) == st.(buf := st.buf + v)
  {
    if v != [] {
      RunQuoted(st, q, v[..|v| - 1]);
      assert v[|v| - 1] in v;
      assert st.buf + v[..|v| - 1] + [v[|v| - 1]] == st.buf + v;
    } else {
      assert st.buf + v == st.buf;
    }
  }

  /** A quoted segment: the quotes are dropped and the text between them
      joins the current token unchanged. */
  lemma QuotedSegment(st: TokState, q: char, v: string)
    requires st.quote.None? && IsQuote(q) && q !in v
    ensures RunFrom(st, [q] + v + [q]) == st.(buf := st.buf + v)
  {
    RunFromAppend(st, [q], v + [q]);
    assert [q] + v + [q] == [q] + (v + [q]);
    assert RunFrom(st, [q]) == st.(quote := Some(q)) by {
      assert [q][..0] == [];
    }
    RunFromAppend(st.(quote := Some(q)), v, [q]);
    RunQuoted(st.(quote := Some(q)), q, v);
    assert RunFrom(st.(buf := st.buf + v, quote := Some(q)), [q])
        == st.(buf := st.buf + v) by {
      assert [q][..0] == [];
    }
  }

  /** `key"quoted text"` is one token: the quote characters are dropped and
      the blanks between them are kept. */
  lemma QuotedToken(k: string, q: char, v: string)
    requires Plain(k) && IsQuote(q) && q !in v && k + v != ""
    ensures TokensOf(k + [q] + v + [q]) == Ok([k + v])
  {
    RunPlain(Start, k);
    assert "" + k == k;
    RunFromAppend(Start, k, [q] + v + [q]);
    assert k + [q] + v + [q] == k + ([q] + v + [q]);
    QuotedSegment(TokState([], k, None), q, v);
    assert RunFrom(Start, k + [q] + v + [q]) == TokState([], k + v, None);
    assert [] + [k + v] == [k + v];
  }

  /** An opened quote that is never closed fails the whole input. */
  lemma UnclosedQuote(a: string, q: char, v: string)
    requires RunFrom(Start, a).quote.None? && IsQuote(q) && q !in v
    ensures TokensOf(a + [q] + v) == Err("unterminated quote")
  {
    var st := RunFrom(Start, a);
    RunFromAppend(Start, a, [q] + v);
    assert a + [q] + v == a + ([q] + v);
    RunFromAppend(st, [q], v);
    assert RunFrom(st, [q]) == st.(quote := Some(q)) by {
      assert [q][..0] == [];
    }
    RunQuoted(st.(quote := Some(q)), q, v);
  }

  lemma {:induction false} RunWords(toks: seq<string>, ws: seq<string>)
    requires |ws| >= 1
    requires forall w :: w in ws ==> w != "" && Plain(w)
    ensures RunFrom(TokState(toks, "", None), Join(ws, " "))
         == TokState(toks + ws[..|ws| - 1], ws[|ws| - 1], None)
    decreases |ws|
  {
    assert ws[0] in ws;
    if |ws| == 1 {
      RunPlain(TokState(toks, "", None), ws[0]);
      assert toks + ws[..0] == toks;
    } else {
      RunWordsHead(toks, ws);
      assert forall w :: w in ws[1..] ==> w in ws;
      RunWords(toks + [ws[0]], ws[1..]);
      assert toks + [ws[0]] + ws[1..][..|ws[1..]| - 1] == toks + ws[..|ws| - 1];
    }
  }

  /** The first of several words becomes a token. */
  lemma RunWordsHead(toks: seq<string>, ws: seq<string>)
    requires |ws| >= 2 && ws[0] != "" && Plain(ws[0])
    ensures RunFrom(TokState(toks, "", None), Join(ws, " "))
         == RunFrom(TokState(toks + [ws[0]], "", None), Join(ws[1..], " "))
  {
    RunWordHead(toks, ws[0], Join(ws[1..], " "));
  }

  /** A word followed by a blank becomes a token. */
  lemma RunWordHead(toks: seq<string>, w: string, rest: string)
    requires w != "" && Plain(w)
    ensures RunFrom(TokState(toks, "", None), w + " " + rest) == RunFrom(TokState(toks + [w], "", None), rest)
  {
    var st := TokState(toks, "", None);
    var st1 := TokState(toks, w, None);
    assert RunFrom(st, w) == st1 by {
      RunPlain(st, w);
      assert "" + w == w;
    }
    assert w + " " + rest == w + (" " + rest);
    RunFromAppend(st, w, " " + rest);
    RunFromAppend(st1, " ", rest);
    assert " "[..0] == [];
  }

  /** Words free of blanks and quotes, joined by single spaces, tokenize
      back to the same words. */
  lemma TokensOfWords(ws: seq<string>)
    requires forall w :: w in ws ==> w != "" && Plain(w)
    ensures TokensOf(Join(ws, " ")) == Ok(ws)
  {
    if |ws| == 0 {
      assert Join(ws, " ") == "";
      assert RunFrom(Start, "") == Start;
      assert [] + [] == ws;
    } else {
      var st := RunFrom(Start, Join(ws, " "));
      assert st == TokState(ws[..|ws| - 1], ws[|ws| - 1], None) by {
        RunWords([], ws);
        assert [] + ws[..|ws| - 1] == ws[..|ws| - 1];
      }
      assert |st.buf| > 0 by {
        assert ws[|ws| - 1] in ws;
      }
      assert ws[..|ws| - 1] + [ws[|ws| - 1]] == ws;
    }
  }

  // ---------------------------------------------------------------------
  // OR groups

  /** `splitOnOR` from the remaining tokens `rest`, with the group being
      built in `current`: `OR` (any case) closes a non-empty group, and a
      token followed by `in` and one more token is fused into one. */
  function GroupsFrom(rest: seq<string>, current: seq<string>): seq<seq<string>>
    decreases |rest|
  {
    if rest == [] then (if |current| > 0 then [current] else [])
    else if EqualFold(rest[0], "OR") then
      if |current| > 0 then [current] + GroupsFrom(rest[1..], [])
      else GroupsFrom(rest[1..], [])
    else if 2 < |rest| && EqualFold(rest[1], "in") then
      GroupsFrom(rest[3..], current + [rest[0] + " in " + rest[2]])
    else GroupsFrom(rest[1..], current + [rest[0]])
  }

  function GroupsOf(tokens: seq<string>): seq<seq<string>> {
    GroupsFrom(tokens, [])
  }

  method SplitOnOR(tokens: seq<string>) returns (groups: seq<seq<string>>)
    ensures groups == GroupsOf(tokens)
  {
    groups := [];
    var current: seq<string> := [];
    var i := 0;
    while i < |tokens|
      invariant 0 <= i <= |tokens|
      invariant groups + GroupsFrom(tokens[i..], current) == GroupsOf(tokens)
      decreases |tokens| - i
    {
      var t := tokens[i];
      if EqualFold(t, "OR") {
        assert tokens[i..][1..] == tokens[i + 1..];
        if |current| > 0 {
          groups := groups + [current];
          current := [];
        }
        i := i + 1;
      } else if i + 2 < |tokens| && EqualFold(tokens[i + 1], "in") {
        assert tokens[i..][3..] == tokens[i + 3..];
        current := current + [t + " in " + tokens[i + 2]];
        i := i + 3;
      } else {
        assert tokens[i..][1..] == tokens[i + 1..];
        current := current + [t];
        i := i + 1;
      }
    }
    if |current| > 0 {
      groups := groups + [current];
    }
  }

  predicate IsOr(t: string) {
    EqualFold(t, "OR")
  }

  /** Every group is non-empty and holds no `OR` token. */
  lemma {:induction false} GroupsClean(rest: seq<string>, current: seq<string>)
    requires forall t :: t in current ==> !IsOr(t)
    ensures forall g :: g in GroupsFrom(rest, current) ==>
      |g| > 0 && forall t :: t in g ==> !IsOr(t)
    decreases |rest|
  {
    if rest != [] {
      if IsOr(rest[0]) {
        GroupsClean(rest[1..], []);
      } else if 2 < |rest| && EqualFold(rest[1], "in") {
        var fused := rest[0] + " in " + rest[2];
        assert |ToUpper(fused)| != |"OR"|;
        GroupsClean(rest[3..], current + [fused]);
      } else {
        GroupsClean(rest[1..], current + [rest[0]]);
      }
    }
  }

  lemma GroupsOfClean(tokens: seq<string>)
    ensures forall g :: g in GroupsOf(tokens) ==> |g| > 0 && forall t :: t in g ==> !IsOr(t)
  {
    GroupsClean(tokens, []);
  }

  /** A triple `t in v` becomes the single token `t in v`. */
  lemma GroupsFuse(t: string, v: string)
    requires !IsOr(t)
    ensures GroupsOf([t, "in", v]) == [[t + " in " + v]]
  {
    var ts := [t, "in", v];
    assert EqualFold(ts[1], "in");
    assert ts[3..] == [];
    assert GroupsFrom(ts, []) == GroupsFrom([], [] + [t + " in " + v]);
    assert [] + [t + " in " + v] == [t + " in " + v];
  }

  /** Tokens none of which is `OR` or `in` form a single group. */
  lemma {:induction false} GroupsPlain(rest: seq<string>, current: seq<string>)
    requires forall t :: t in rest ==> !IsOr(t) && !EqualFold(t, "in")
    ensures GroupsFrom(rest, current) == if current + rest == [] then [] else [current + rest]
    decreases |rest|
  {
    if rest != [] {
      assert rest[0] in rest;
      if 1 < |rest| {
        assert rest[1] in rest;
      }
      assert forall t :: t in rest[1..] ==> t in rest;
      GroupsPlain(rest[1..], current + [rest[0]]);
      assert current + [rest[0]] + rest[1..] == current + rest;
    } else {
      assert current + rest == current;
    }
  }

  // ---------------------------------------------------------------------
  // key op value

  datatype Op = OpIn | OpMatch | OpEq

  datatype KeyOpVal = KeyOpVal(key: string, op: Op, val: string)

  /** `trimQuotes`: drops one pair of matching enclosing quotes. */
  function TrimQuotes(s: string): (r: string)
    ensures |r| <= |s|
    ensures r == s || (|s| >= 2 && r == s[1..|s| - 1])
  {
    if |s| >= 2 && ((s[0] == '"' && s[|s| - 1] == '"') || (s[0] == '\'' && s[|s| - 1] == '\''))
    then s[1..|s| - 1]
    else s
  }

  lemma TrimQuotesStrips(q: char, w: string)
    requires IsQuote(q)
    ensures TrimQuotes([q] + w + [q]) == w
  {
    assert ([q] + w + [q])[1..|w| + 1] == w;
  }

  lemma TrimQuotesKeeps(w: string)
    requires w == [] || !IsQuote(w[0])
    ensures TrimQuotes(w) == w
  {
  }

  function InvalidToken(token: string): string {
    "invalid token: " + token
  }

  const NoOperator := "expected key=value or key~value"

  /** The key and value on either side of an operator at `idx` of width
      `width`, both trimmed; an empty side is an error. */
  function SidesAt(token: string, idx: nat, width: nat, op: Op): (r: Result<KeyOpVal>)
    requires idx + width <= |token|
    ensures r.Ok? ==> r.value.key != "" && r.value.op == op
    ensures r.Ok? && op == OpIn ==> r.value.val != ""
  {
    var key := TrimSpace(token[..idx]);
    var val := TrimSpace(token[idx + width..]);
    if key == "" || val == "" then Err(InvalidToken(token))
    else if op == OpIn then Ok(KeyOpVal(key, OpIn, val))
    else Ok(KeyOpVal(key, op, TrimQuotes(val)))
  }

  /** `splitToken`: ` in ` (found ignoring case) first, then `~`, then `=`. */
  function SplitToken(token: string): (r: Result<KeyOpVal>)
    ensures r.Ok? ==> r.value.key != ""
    ensures r.Ok? && r.value.op == OpIn ==> r.value.val != ""
  {
    match IndexOf(ToLower(token), " in ")
    case Some(idx) => SidesAt(token, idx, 4, OpIn)
    case None =>
      match IndexOf(token, "~")
      case Some(idx) => SidesAt(token, idx, 1, OpMatch)
      case None =>
        match IndexOf(token, "=")
        case Some(idx) => SidesAt(token, idx, 1, OpEq)
        case None => Err(NoOperator)
  }

  lemma LowerIsSpace(c: char)
    ensures Lower(c) == ' ' <==> c == ' '
  {
  }

  /** Text without a space contains no ` in `, whatever its case. */
  lemma NoSpaceNoIn(s: string)
    requires ' ' !in s
    ensures IndexOf(ToLower(s), " in ") == None
  {
    if IndexOf(ToLower(s), " in ").Some? {
      var j := IndexOf(ToLower(s), " in ").value;
      assert ToLower(s)[j..j + 4] == " in ";
      assert ToLower(s)[j] == ' ';
      LowerIsSpace(s[j]);
    }
  }

  /** `key=value` with no `~` anywhere splits at the first `=`. */
  lemma SplitTokenEq(key: string, val: string)
    requires key != "" && val != "" && NoSpace(key) && NoSpace(val)
    requires '=' !in key && '~' !in key && '~' !in val
    ensures SplitToken(key + "=" + val) == Ok(KeyOpVal(key, OpEq, TrimQuotes(val)))
  {
    var t := key + "=" + val;
    assert ' ' !in t && '~' !in t by {
      assert forall i :: 0 <= i < |t| ==> t[i] == '=' || t[i] in key || t[i] in val;
    }
    NoSpaceNoIn(t);
    ContainsChar(t, '~');
    IndexOfCharAfter(key, '=', val);
    SidesAtClean(key, "=", val, OpEq);
  }

  /** `~` takes priority over `=`: with a `~` present the token splits at
      the first `~`, even when an `=` comes before it. */
  lemma SplitTokenMatch(key: string, val: string)
    requires key != "" && val != "" && NoSpace(key) && NoSpace(val)
    requires '~' !in key
    ensures SplitToken(key + "~" + val) == Ok(KeyOpVal(key, OpMatch, TrimQuotes(val)))
  {
    var t := key + "~" + val;
    assert ' ' !in t by {
      assert forall i :: 0 <= i < |t| ==> t[i] == '~' || t[i] in key || t[i] in val;
    }
    NoSpaceNoIn(t);
    IndexOfCharAfter(key, '~', val);
    SidesAtClean(key, "~", val, OpMatch);
  }

  /** `key in value` splits at the first ` in `; the value keeps its
      quotes. */
  lemma SplitTokenIn(key: string, val: string)
    requires key != "" && NoSpace(key) && NoSpace(val) && val != ""
    ensures SplitToken(key + " in " + val) == Ok(KeyOpVal(key, OpIn, val))
  {
    InFound(key, val);
    SidesAtClean(key, " in ", val, OpIn);
  }

  /** Around an operator, a key and a value without white space are taken
      as they are (the value unquoted unless the operator is `in`). */
  lemma SidesAtClean(key: string, mid: string, val: string, op: Op)
    requires key != "" && NoSpace(key) && NoSpace(val) && val != ""
    ensures SidesAt(key + mid + val, |key|, |mid|, op)
         == Ok(KeyOpVal(key, op, if op == OpIn then val else TrimQuotes(val)))
  {
    var t := key + mid + val;
    assert t[..|key|] == key;
    assert t[|key| + |mid|..] == val;
    TrimSpaceNoSpace(key);
    TrimSpaceNoSpace(val);
  }

  /** The first ` in ` of `key in val`, ignoring case, is right after a key
      without white space. */
  lemma InFound(key: string, val: string)
    requires NoSpace(key)
    ensures IndexOf(ToLower(key + " in " + val), " in ") == Some(|key|)
  {
    var t := key + " in " + val;
    var lower := ToLower(t);
    ToLowerAppend(key + " in ", val);
    ToLowerAppend(key, " in ");
    assert ToLower(" in ") == " in ";
    assert lower[|key|..|key| + 4] == " in ";
    assert OccursAt(lower, " in ", |key|);
    forall j | 0 <= j < |key|
      ensures !OccursAt(lower, " in ", j)
    {
      OccursAtHead(lower, " in ", j);
      assert t[j] == key[j];
      LowerIsSpace(t[j]);
    }
  }

  /** `key=` with nothing after the operator is an invalid token. */
  lemma SplitTokenEmptyValue(key: string)
    requires NoSpace(key) && '=' !in key && '~' !in key
    ensures SplitToken(key + "=") == Err(InvalidToken(key + "="))
  {
    var t := key + "=";
    assert ' ' !in t && '~' !in t by {
      assert forall i :: 0 <= i < |t| ==> t[i] == '=' || t[i] in key;
    }
    NoSpaceNoIn(t);
    ContainsChar(t, '~');
    IndexOfCharAfter(key, '=', "");
    assert key + ['='] + "" == t;
    assert t[|key| + 1..] == "";
  }

  /** `=value` with nothing before the operator is an invalid token. */
  lemma SplitTokenEmptyKey(val: string)
    requires NoSpace(val) && '~' !in val
    ensures SplitToken("=" + val) == Err(InvalidToken("=" + val))
  {
    var t := "=" + val;
    assert ' ' !in t && '~' !in t by {
      assert forall i :: 0 <= i < |t| ==> t[i] == '=' || t[i] in val;
    }
    NoSpaceNoIn(t);
    ContainsChar(t, '~');
    IndexOfCharAfter("", '=', val);
    assert [] + ['='] + val == t;
    assert t[..0] == "";
  }

  /** A token with no operator at all is rejected. */
  lemma SplitTokenNoOperator(token: string)
    requires ' ' !in token && '~' !in token && '=' !in token
    ensures SplitToken(token) == Err(NoOperator)
  {
    NoSpaceNoIn(token);
    ContainsChar(token, '~');
    ContainsChar(token, '=');
  }

  // ---------------------------------------------------------------------
  // in (...) lists

  /** The list text with surrounding blanks and one pair of enclosing
      parentheses removed. */
  function InBody(val: string): string {
    StripParens(TrimSpace(val))
  }

  /** One leading `(` and one trailing `)` removed, when both are there. */
  function StripParens(v: string): string {
    if HasPrefix(v, "(") && HasSuffix(v, ")") then
      var a := v[1..];
      if HasSuffix(a, ")") then a[..|a| - 1] else a
    else v
  }

  /** The trimmed, unquoted, non-empty items of `parts`, in order. */
  function InItems(parts: seq<string>): seq<string> {
    if parts == [] then []
    else InItems(parts[..|parts| - 1]) + ItemIn(parts[|parts| - 1])
  }

  /** One part of the list: trimmed of blanks, then of quotes; kept when
      something remains. */
  function ItemIn(part: string): seq<string> {
    var item := TrimQuotes(TrimSpace(part));
    if item == "" then [] else [item]
  }

  const EmptyInList := "empty in() list"

  /** `parseInList`. */
  function InListOf(val: string): Result<seq<string>> {
    var items := InItems(Split(InBody(val), ','));
    if |items| == 0 then Err(EmptyInList) else Ok(items)
  }

  method ParseInList(val: string) returns (r: Result<seq<string>>)
    ensures r == InListOf(val)
  {
    var out := ListItems(Split(InBody(val), ','));
    if |out| == 0 {
      return Err(EmptyInList);
    }
    return Ok(out);
  }

  /** The item loop of `parseInList`. */
  method ListItems(parts: seq<string>) returns (out: seq<string>)
    ensures out == InItems(parts)
  {
    out := [];
    var i := 0;
    while i < |parts|
      invariant 0 <= i <= |parts|
      invariant out == InItems(parts[..i])
    {
      var item := TrimQuotes(TrimSpace(parts[i]));
      ItemsStep(parts, i);
      if item != "" {
        out := out + [item];
      }
      i := i + 1;
    }
    assert parts[..i] == parts;
  }

  lemma ItemsStep(parts: seq<string>, i: int)
    requires 0 <= i < |parts|
    ensures InItems(parts[..i + 1]) == InItems(parts[..i]) + ItemIn(parts[i])
  {
    assert parts[..i + 1][..i] == parts[..i];
  }

  lemma {:induction false} InItemsClean(parts: seq<string>)
    requires forall p :: p in parts ==> ',' !in p
    ensures forall w :: w in InItems(parts) ==> w != "" && ',' !in w
  {
    if parts != [] {
      var last := parts[|parts| - 1];
      InItemsClean(parts[..|parts| - 1]);
      ItemInClean(last);
    }
  }

  lemma ItemInClean(part: string)
    requires ',' !in part
    ensures forall w :: w in ItemIn(part) ==> w != "" && ',' !in w
  {
    TrimSpaceKeeps(part, ',');
  }

  /** Every item of a parsed list is non-empty and holds no comma, and the
      list is an error exactly when no item remains. */
  lemma InListClean(val: string)
    ensures InListOf(val).Ok? ==> forall w :: w in InListOf(val).value ==> w != "" && ',' !in w
  {
    SplitItemsClean(InBody(val));
  }

  lemma SplitItemsClean(body: string)
    ensures forall w :: w in InItems(Split(body, ',')) ==> w != "" && ',' !in w
  {
    SplitPartsFree(body, ',');
    InItemsClean(Split(body, ','));
  }

  /** A word that survives every trimming step of the list parser. */
  predicate ListWord(w: string) {
    w != "" && NoSpace(w) && ',' !in w && !IsQuote(w[0])
  }

  lemma {:induction false} InItemsWords(ws: seq<string>)
    requires forall w :: w in ws ==> ListWord(w)
    ensures InItems(ws) == ws
  {
    if ws != [] {
      var init, last := ws[..|ws| - 1], ws[|ws| - 1];
      assert last in ws;
      TrimSpaceNoSpace(last);
      assert TrimQuotes(TrimSpace(last)) == last;
      assert ItemIn(last) == [last];
      assert forall w :: w in init ==> w in ws;
      InItemsWords(init);
      LastSplit(ws);
    }
  }

  /** `(a,b,...)` parses back to its words. */
  lemma InListRoundTrip(ws: seq<string>)
    requires |ws| > 0 && forall w :: w in ws ==> ListWord(w)
    ensures InListOf("(" + Join(ws, ",") + ")") == Ok(ws)
  {
    var j := Join(ws, ",");
    JoinNoSpace(ws, ",");
    Parenthesized(j);
    JoinSplit(ws, ',');
    InItemsWords(ws);
  }

  /** A parenthesised list body without white space loses exactly its
      parentheses. */
  lemma Parenthesized(j: string)
    requires NoSpace(j)
    ensures InBody("(" + j + ")") == j
  {
    var a := j + ")";
    NoSpaceAppend(j, ")");
    NoSpaceAppend("(", a);
    assert "(" + a == "(" + j + ")";
    TrimSpaceNoSpace("(" + a);
    StripParensOf(j);
  }

  lemma StripParensOf(j: string)
    ensures StripParens("(" + j + ")") == j
  {
    var a := j + ")";
    var v := "(" + a;
    assert v == "(" + j + ")";
    assert v[..1] == "(";
    assert v[|v| - 1..] == ")";
    assert v[1..] == a;
    assert a[|a| - 1..] == ")";
    assert a[..|a| - 1] == j;
  }

  lemma {:induction false} JoinNoSpace(ws: seq<string>, sep: string)
    requires NoSpace(sep) && forall w :: w in ws ==> NoSpace(w)
    ensures NoSpace(Join(ws, sep))
  {
    if |ws| > 1 {
      assert forall w :: w in ws[1..] ==> w in ws;
      JoinNoSpace(ws[1..], sep);
      assert ws[0] in ws;
    }
  }

  // ---------------------------------------------------------------------
  // One AND group

  /** What one token contributes to its group's filter. */
  datatype Clause =
    | SetLevel(level: string)
    | AddLevels(levels: seq<string>)
    | SetSearch(search: string)
    | SetAfter(after: int)
    | SetBefore(before: int)

  /** The parts of the environment the parser reads: the clock for
      `since`, Go's duration parser (seconds) and the RFC 3339 parser. */
  datatype Env = Env(
    now: int,
    parseDuration: string -> Option<int>,
    parseTime: string -> Option<int>)

  /** The error for a time key used with an operator other than `=`. */
  function OnlyEq(key: string): string {
    key + " supports only '='"
  }

  /** One token of a group, as the `switch` of `parseAndGroup` reads it. */
  function ClauseOf(env: Env, token: string): Result<Clause> {
    var kov :- SplitToken(token);
    var k := ToLower(kov.key);
    if k == "level" then
      if kov.op == OpIn then
        var levels :- InListOf(kov.val);
        Ok(AddLevels(levels))
      else if kov.op != OpEq then Err("level supports only '=' or 'in'")
      else Ok(SetLevel(kov.val))
    else if k == "message" || k == "search" then
      if kov.op != OpMatch && kov.op != OpEq then Err("message/search supports '~' or '='")
      else Ok(SetSearch(kov.val))
    else if k == "since" then
      if kov.op != OpEq then Err(OnlyEq("since"))
      else match env.parseDuration(kov.val)
        case None => Err("invalid since duration")
        case Some(d) => Ok(SetAfter(env.now - d))
    else if k == "after" then
      if kov.op != OpEq then Err(OnlyEq("after"))
      else match env.parseTime(kov.val)
        case None => Err("invalid after timestamp")
        case Some(t) => Ok(SetAfter(t))
    else if k == "before" then
      if kov.op != OpEq then Err(OnlyEq("before"))
      else match env.parseTime(kov.val)
        case None => Err("invalid before timestamp")
        case Some(t) => Ok(SetBefore(t))
    else Err("unknown filter: " + kov.key)
  }

  /** A clause applied to the filter built so far; level lists accumulate.
      A bound equal to Go's zero instant is stored as it is in the source,
      where every later `IsZero` test reads it as unset. */
  function Apply(f: Filters, c: Clause): (r: Filters)
    ensures r.anyOf == f.anyOf
  {
    match c
    case SetLevel(l) => f.(level := l)
    case AddLevels(ls) => f.(levelIn := f.levelIn + ls)
    case SetSearch(s) => f.(search := s)
    case SetAfter(t) => f.(after := Bound(t))
    case SetBefore(t) => f.(before := Bound(t))
  }

  /** The clause of each token of a group, in order. */
  function ClausesOf(env: Env, tokens: seq<string>): (r: seq<Result<Clause>>)
    ensures |r| == |tokens|
    ensures forall i :: 0 <= i < |tokens| ==> r[i] == ClauseOf(env, tokens[i])
  {
    seq(|tokens|, i requires 0 <= i < |tokens| => ClauseOf(env, tokens[i]))
  }

  /** Clauses applied left to right to the empty filter; the first error
      stops the fold. */
  function Fold(cs: seq<Result<Clause>>): (r: Result<Filters>)
    ensures r.Ok? ==> r.value.anyOf == []
  {
    if cs == [] then Ok(Empty)
    else
      var f :- Fold(cs[..|cs| - 1]);
      var c :- cs[|cs| - 1];
      Ok(Apply(f, c))
  }

  /** `parseAndGroup`. */
  function GroupOf(env: Env, tokens: seq<string>): (r: Result<Filters>)
    ensures r.Ok? ==> r.value.anyOf == []
  {
    Fold(ClausesOf(env, tokens))
  }

  method ParseAndGroup(env: Env, tokens: seq<string>) returns (r: Result<Filters>)
    ensures r == GroupOf(env, tokens)
  {
    ghost var cs := ClausesOf(env, tokens);
    var f := Empty;
    var i := 0;
    while i < |tokens|
      invariant 0 <= i <= |tokens|
      invariant Fold(cs[..i]) == Ok(f)
    {
      assert cs[..i + 1][..i] == cs[..i];
      var c := ClauseOf(env, tokens[i]);
      if c.Err? {
        FoldErrStays(cs, i + 1);
        return Err(c.msg);
      }
      f := Apply(f, c.value);
      i := i + 1;
    }
    assert cs[..i] == cs;
    return Ok(f);
  }

  lemma {:induction false} FoldErrStays(cs: seq<Result<Clause>>, n: nat)
    requires n <= |cs|
    requires Fold(cs[..n]).Err?
    ensures Fold(cs) == Fold(cs[..n])
    decreases |cs| - n
  {
    if n < |cs| {
      assert cs[..n + 1][..n] == cs[..n];
      FoldErrStays(cs, n + 1);
    } else {
      assert cs[..n] == cs;
    }
  }

  lemma {:induction false} FoldOkIff(cs: seq<Result<Clause>>)
    ensures Fold(cs).Ok? <==> forall i :: 0 <= i < |cs| ==> cs[i].Ok?
  {
    if cs != [] {
      var init := cs[..|cs| - 1];
      FoldOkIff(init);
      assert forall i :: 0 <= i < |init| ==> init[i] == cs[i];
    }
  }

  /** A group parses exactly when each of its tokens does. */
  lemma GroupOkIff(env: Env, tokens: seq<string>)
    ensures GroupOf(env, tokens).Ok? <==> forall i :: 0 <= i < |tokens| ==> ClauseOf(env, tokens[i]).Ok?
  {
    FoldOkIff(ClausesOf(env, tokens));
  }

  /** The errors of one clause, keys compared ignoring case. */
  lemma ClauseErrors(env: Env, token: string)
    requires SplitToken(token).Ok?
    ensures var kov := SplitToken(token).value;
      var k := ToLower(kov.key);
      && (k !in {"level", "message", "search", "since", "after", "before"} ==>
           ClauseOf(env, token) == Err("unknown filter: " + kov.key))
      && (k == "level" && kov.op == OpMatch ==>
           ClauseOf(env, token) == Err("level supports only '=' or 'in'"))
      && (k in {"since", "after", "before"} && kov.op != OpEq ==>
           ClauseOf(env, token) == Err(OnlyEq(k)))
      && (k in {"message", "search"} && kov.op == OpIn ==>
           ClauseOf(env, token) == Err("message/search supports '~' or '='"))
  {
    var kov := SplitToken(token).value;
    var k := ToLower(kov.key);
    if k == "level" {
    } else if k == "message" || k == "search" {
    } else if k == "since" || k == "after" || k == "before" {
      if kov.op != OpEq {
        TimeOpError(env, token);
      }
    } else {
      assert ClauseOf(env, token) == Err("unknown filter: " + kov.key);
    }
  }

  lemma TimeOpError(env: Env, token: string)
    requires SplitToken(token).Ok? && SplitToken(token).value.op != OpEq
    requires ToLower(SplitToken(token).value.key) in {"since", "after", "before"}
    ensures ClauseOf(env, token) == Err(OnlyEq(ToLower(SplitToken(token).value.key)))
  {
    var kov := SplitToken(token).value;
    var k := ToLower(kov.key);
    assert k != "level" && k != "message" && k != "search";
  }

  /** A time bound that parses to Go's zero instant leaves the filter
      unset, as `IsZero` reads it: the query `before=<zero>` or
      `after=<zero>` is the empty filter, which every entry matches. */
  lemma ZeroBoundUnset(env: Env, key: string, val: string, e: LogEntry)
    requires key == "before" || key == "after"
    requires val != "" && NoSpace(val) && Plain(val) && '~' !in val
    requires env.parseTime(TrimQuotes(val)) == Some(ZeroInstant)
    ensures ParseOf(env, key + "=" + val) == Ok(Empty)
    ensures Matches(e, Empty)
  {
    ZeroBoundToken(key, val);
    SingleTokenQuery(env, key + "=" + val);
    ZeroGroup(env, key, val);
    EmptyMatchesAll(Empty, e);
  }

  lemma ZeroGroup(env: Env, key: string, val: string)
    requires key == "before" || key == "after"
    requires val != "" && NoSpace(val) && '~' !in val
    requires env.parseTime(TrimQuotes(val)) == Some(ZeroInstant)
    ensures GroupOf(env, [key + "=" + val]) == Ok(Empty)
  {
    var c := if key == "before" then SetBefore(ZeroInstant) else SetAfter(ZeroInstant);
    ZeroClause(env, key, val);
    GroupOfOne(env, key + "=" + val, c);
    ApplyZero(c);
  }

  /** Storing the zero instant as a bound leaves the empty filter empty. */
  lemma ApplyZero(c: Clause)
    requires c == SetBefore(ZeroInstant) || c == SetAfter(ZeroInstant)
    ensures Apply(Empty, c) == Empty
  {
    assert Bound(ZeroInstant) == None;
  }

  lemma GroupOfOne(env: Env, w: string, c: Clause)
    requires ClauseOf(env, w) == Ok(c)
    ensures GroupOf(env, [w]) == Ok(Apply(Empty, c))
  {
    assert ClausesOf(env, [w]) == [Ok(c)];
    FoldOne(c);
  }

  lemma FoldOne(c: Clause)
    ensures Fold([Ok(c)]) == Ok(Apply(Empty, c))
  {
    assert [Ok(c)][..0] == [];
    assert Fold([]) == Ok(Empty);
  }

  /** A query of one plain token is the group of that token. */
  lemma SingleTokenQuery(env: Env, w: string)
    requires |w| > 2 && Plain(w)
    ensures ParseOf(env, w) == GroupOf(env, [w])
  {
    assert Join([w], " ") == w;
    TokensOfWords([w]);
    assert !IsOr(w) && !EqualFold(w, "in") by {
      assert |ToUpper(w)| > 2;
    }
    GroupsPlain([w], []);
    assert [] + [w] == [w];
  }

  /** The clause of a time bound whose value parses to the zero instant. */
  lemma ZeroClause(env: Env, key: string, val: string)
    requires key == "before" || key == "after"
    requires val != "" && NoSpace(val) && '~' !in val
    requires env.parseTime(TrimQuotes(val)) == Some(ZeroInstant)
    ensures ClauseOf(env, key + "=" + val)
         == Ok(if key == "before" then SetBefore(ZeroInstant) else SetAfter(ZeroInstant))
  {
    SplitTokenEq(key, val);
    LowerTimeKey(key);
    assert key != "level" && key != "message" && key != "search" && key != "since" by {
      assert key[0] == 'b' || key[0] == 'a';
    }
  }

  lemma LowerTimeKey(key: string)
    requires key == "before" || key == "after"
    ensures ToLower(key) == key
  {
    assert forall i :: 0 <= i < |key| ==> 'a' <= key[i] <= 'z';
    assert forall i :: 0 <= i < |key| ==> ToLower(key)[i] == key[i];
  }

  lemma ZeroBoundToken(key: string, val: string)
    requires key == "before" || key == "after"
    requires val != "" && Plain(val)
    ensures key + "=" + val != "" && Plain(key + "=" + val)
  {
    var w := key + "=" + val;
    assert forall i :: 0 <= i < |w| ==> w[i] == '=' || w[i] in key || w[i] == val[i - |key| - 1];
  }

  // ---------------------------------------------------------------------
  // Parse

  /** The results of parsing each group, in order. */
  function GroupResults(env: Env, groups: seq<seq<string>>): (r: seq<Result<Filters>>)
    ensures |r| == |groups|
    ensures forall i :: 0 <= i < |groups| ==> r[i] == GroupOf(env, groups[i])
  {
    seq(|groups|, i requires 0 <= i < |groups| => GroupOf(env, groups[i]))
  }

  /** The values of a sequence of results; the first error fails all. */
  function Collect(rs: seq<Result<Filters>>): (r: Result<seq<Filters>>)
    ensures r.Ok? ==> |r.value| == |rs|
  {
    if rs == [] then Ok([])
    else
      var fs :- Collect(rs[..|rs| - 1]);
      var f :- rs[|rs| - 1];
      Ok(fs + [f])
  }

  function AllGroups(env: Env, groups: seq<seq<string>>): Result<seq<Filters>> {
    Collect(GroupResults(env, groups))
  }

  /** `Parse`. */
  function ParseOf(env: Env, input: string): Result<Filters> {
    var tokens :- TokensOf(input);
    ParseGroups(env, GroupsOf(tokens))
  }

  /** The filter of a query's OR groups: none gives the empty filter, one
      gives that group's filter, several give a disjunction. */
  function ParseGroups(env: Env, groups: seq<seq<string>>): Result<Filters> {
    if |groups| == 0 then Ok(Empty)
    else if |groups| == 1 then GroupOf(env, groups[0])
    else
      var fs :- AllGroups(env, groups);
      Ok(Empty.(anyOf := fs))
  }

  method Parse(env: Env, input: string) returns (r: Result<Filters>)
    ensures r == ParseOf(env, input)
  {
    var tokens := Tokenize(input);
    if tokens.Err? {
      return Err(tokens.msg);
    }
    var groups := SplitOnOR(tokens.value);
    if |groups| == 0 {
      return Ok(Empty);
    }
    if |groups| == 1 {
      r := ParseAndGroup(env, groups[0]);
      return;
    }
    ghost var rs := GroupResults(env, groups);
    var fs: seq<Filters> := [];
    var i := 0;
    while i < |groups|
      invariant 0 <= i <= |groups|
      invariant Collect(rs[..i]) == Ok(fs)
    {
      var f := ParseAndGroup(env, groups[i]);
      CollectStep(rs, i, fs);
      if f.Err? {
        CollectErrStays(rs, i + 1);
        return Err(f.msg);
      }
      fs := fs + [f.value];
      i := i + 1;
    }
    assert rs[..i] == rs;
    return Ok(Empty.(anyOf := fs));
  }

  /** One more result: a value is added, an error fails the whole. */
  lemma CollectStep(rs: seq<Result<Filters>>, i: nat, fs: seq<Filters>)
    requires i < |rs| && Collect(rs[..i]) == Ok(fs)
    ensures rs[i].Ok? ==> Collect(rs[..i + 1]) == Ok(fs + [rs[i].value])
    ensures rs[i].Err? ==> Collect(rs[..i + 1]) == Err(rs[i].msg)
  {
    assert rs[..i + 1][..i] == rs[..i];
  }

  lemma {:induction false} CollectErrStays(rs: seq<Result<Filters>>, n: nat)
    requires n <= |rs|
    requires Collect(rs[..n]).Err?
    ensures Collect(rs) == Collect(rs[..n])
    decreases |rs| - n
  {
    if n < |rs| {
      assert rs[..n + 1][..n] == rs[..n];
      CollectErrStays(rs, n + 1);
    } else {
      assert rs[..n] == rs;
    }
  }

  lemma {:induction false} CollectValues(rs: seq<Result<Filters>>)
    ensures Collect(rs).Ok? <==> forall i :: 0 <= i < |rs| ==> rs[i].Ok?
    ensures Collect(rs).Ok? ==> forall i :: 0 <= i < |rs| ==> Collect(rs).value[i] == rs[i].value
  {
    if rs != [] {
      var init := rs[..|rs| - 1];
      CollectValues(init);
      assert forall i :: 0 <= i < |init| ==> init[i] == rs[i];
    }
  }

  /** The shape of a parse: no groups give the empty filter, one group a
      conjunctive filter, several groups a disjunction with one branch per
      group in text order; any failing group fails the parse. */
  lemma ParseShape(env: Env, groups: seq<seq<string>>)
    ensures |groups| == 0 ==> ParseGroups(env, groups) == Ok(Empty)
    ensures ParseGroups(env, groups).Ok? <==> forall i :: 0 <= i < |groups| ==> GroupOf(env, groups[i]).Ok?
    ensures |groups| == 1 && ParseGroups(env, groups).Ok? ==> ParseGroups(env, groups).value.anyOf == []
    ensures |groups| >= 2 && ParseGroups(env, groups).Ok? ==>
      var f := ParseGroups(env, groups).value;
      IsEmpty(f.(anyOf := [])) && |f.anyOf| == |groups|
      && forall i :: 0 <= i < |groups| ==> f.anyOf[i] == GroupOf(env, groups[i]).value
  {
    CollectValues(GroupResults(env, groups));
  }

  /** What a parsed query matches: with groups, exactly the entries one of
      the groups matches as a conjunction. */
  lemma ParseMeaning(env: Env, groups: seq<seq<string>>, e: LogEntry)
    requires ParseGroups(env, groups).Ok?
    ensures Matches(e, ParseGroups(env, groups).value) <==>
      (|groups| == 0 || exists i :: 0 <= i < |groups| && GroupOf(env, groups[i]).Ok?
                                     && MatchesAll(e, GroupOf(env, groups[i]).value))
  {
    if |groups| == 0 {
      assert ParseGroups(env, groups) == Ok(Empty);
      assert Matches(e, Empty) by { EmptyMatchesAll(Empty, e); }
    } else if |groups| == 1 {
      ParseOneMeaning(env, groups, e);
    } else {
      ParseManyMeaning(env, groups, e);
    }
  }

  /** With one group, the parse matches what that group matches. */
  lemma ParseOneMeaning(env: Env, groups: seq<seq<string>>, e: LogEntry)
    requires |groups| == 1 && ParseGroups(env, groups).Ok?
    ensures Matches(e, ParseGroups(env, groups).value) <==>
      exists i :: 0 <= i < |groups| && GroupOf(env, groups[i]).Ok? && MatchesAll(e, GroupOf(env, groups[i]).value)
  {
    var g := GroupOf(env, groups[0]);
    assert ParseGroups(env, groups) == g;
    assert Matches(e, g.value) <==> MatchesAll(e, g.value);
    if MatchesAll(e, g.value) {
      assert 0 < |groups| && GroupOf(env, groups[0]).Ok? && MatchesAll(e, GroupOf(env, groups[0]).value);
    }
    if exists i :: 0 <= i < |groups| && GroupOf(env, groups[i]).Ok? && MatchesAll(e, GroupOf(env, groups[i]).value) {
      var i :| 0 <= i < |groups| && GroupOf(env, groups[i]).Ok? && MatchesAll(e, GroupOf(env, groups[i]).value);
      assert i == 0;
    }
  }

  /** With two groups or more, the parse matches what one group matches. */
  lemma ParseManyMeaning(env: Env, groups: seq<seq<string>>, e: LogEntry)
    requires |groups| >= 2 && ParseGroups(env, groups).Ok?
    ensures Matches(e, ParseGroups(env, groups).value) <==>
      exists i :: 0 <= i < |groups| && GroupOf(env, groups[i]).Ok? && MatchesAll(e, GroupOf(env, groups[i]).value)
  {
    var rs := GroupResults(env, groups);
    assert ParseGroups(env, groups) == Ok(Empty.(anyOf := Collect(rs).value));
    CollectValues(rs);
    CollectMeaning(rs, e);
    if Matches(e, ParseGroups(env, groups).value) {
      var i :| 0 <= i < |rs| && rs[i].Ok? && MatchesAll(e, rs[i].value);
      assert GroupOf(env, groups[i]) == rs[i];
    }
    if exists i :: 0 <= i < |groups| && GroupOf(env, groups[i]).Ok? && MatchesAll(e, GroupOf(env, groups[i]).value) {
      var i :| 0 <= i < |groups| && GroupOf(env, groups[i]).Ok? && MatchesAll(e, GroupOf(env, groups[i]).value);
      assert rs[i] == GroupOf(env, groups[i]);
    }
  }

  /** A disjunction of conjunctive results matches when one of them does. */
  lemma CollectMeaning(rs: seq<Result<Filters>>, e: LogEntry)
    requires |rs| > 0 && Collect(rs).Ok?
    requires forall i :: 0 <= i < |rs| && rs[i].Ok? ==> rs[i].value.anyOf == []
    ensures Matches(e, Empty.(anyOf := Collect(rs).value)) <==>
      exists i :: 0 <= i < |rs| && rs[i].Ok? && MatchesAll(e, rs[i].value)
  {
    CollectValues(rs);
    var fs := Collect(rs).value;
    if exists i :: 0 <= i < |rs| && rs[i].Ok? && MatchesAll(e, rs[i].value) {
      var i :| 0 <= i < |rs| && rs[i].Ok? && MatchesAll(e, rs[i].value);
      assert Matches(e, fs[i]);
    }
  }
}
