/** Turning lines of text into log entries: the plain
    `<timestamp> <LEVEL> <message...>` layout, logfmt `key=value` pairs,
    JSON objects (through an abstract parser), format detection and the
    line-by-line reader. */
module Ingest {
  import opened Types
  import opened Text
  import opened Seqs

  /** `Format`; `Unknown` is any other string value of the Go type. */
  datatype Format = Auto | Plain | Json | Logfmt | Unknown(name: string)

  /** Library-backed parsers the ingest code calls: `time.Parse` with the
      RFC 3339 layout (giving an instant in seconds) and `parseJSONLine`. */
  datatype Parsers = Parsers(
    parseTime: string -> Option<int>,
    parseJson: string -> Result<LogEntry>)

  /** The text of `os.ErrInvalid`. */
  const ErrInvalid := "invalid argument"

  function TimeError(text: string): string {
    "parsing time \"" + text + "\""
  }

  // ---------------------------------------------------------------------
  // Plain lines

  /** `parseLine`: at least three white-space separated fields; the first
      is the timestamp, the second the level, the rest the message joined
      by single spaces. */
  function ParseLine(p: Parsers, line: string): Result<LogEntry> {
    var parts := Fields(line);
    if |parts| < 3 then Err(ErrInvalid)
    else match p.parseTime(parts[0])
      case None => Err(TimeError(parts[0]))
      case Some(t) => Ok(LogEntry(t, parts[1], Join(parts[2..], " ")))
  }

  /** A run of characters with no white space: what a field can be. */
  predicate IsWord(w: string) {
    w != "" && NoSpace(w)
  }

  /** A line written as timestamp, level and message words, separated by
      single spaces, parses back to that timestamp, level and message. */
  lemma ParseLineRoundTrip(p: Parsers, stamp: string, t: int, level: string, words: seq<string>)
    requires IsWord(stamp) && IsWord(level) && |words| >= 1
    requires forall w :: w in words ==> IsWord(w)
    requires p.parseTime(stamp) == Some(t)
    ensures ParseLine(p, Join([stamp, level] + words, " ")) == Ok(LogEntry(t, level, Join(words, " ")))
  {
    var ws := [stamp, level] + words;
    FieldsOfWords(stamp, level, words);
    ParseLineOfFields(p, Join(ws, " "), ws);
    assert ws[2..] == words;
  }

  /** The fields of timestamp, level and message words joined by single
      spaces are those words. */
  lemma FieldsOfWords(stamp: string, level: string, words: seq<string>)
    requires IsWord(stamp) && IsWord(level)
    requires forall w :: w in words ==> IsWord(w)
    ensures Fields(Join([stamp, level] + words, " ")) == [stamp, level] + words
  {
    var ws := [stamp, level] + words;
    assert forall w :: w in ws ==> w != "" && NoSpace(w) by {
      forall w | w in ws
        ensures w != "" && NoSpace(w)
      {
        if w != stamp && w != level {
          assert w in words;
        }
      }
    }
    FieldsJoin(ws);
  }

  /** `ParseLine` read off the fields of the line. */
  lemma ParseLineOfFields(p: Parsers, line: string, ws: seq<string>)
    requires Fields(line) == ws && |ws| >= 3
    ensures ParseLine(p, line) == match p.parseTime(ws[0])
      case None => Err(TimeError(ws[0]))
      case Some(t) => Ok(LogEntry(t, ws[1], Join(ws[2..], " ")))
  {
  }

  /** A line with fewer than three fields is rejected whatever the
      timestamp parser says: a missing message or a missing level. */
  lemma ParseLineTooShort(p: Parsers, stamp: string, level: string)
    requires IsWord(stamp) && IsWord(level)
    ensures ParseLine(p, stamp + " " + level) == Err(ErrInvalid)
    ensures ParseLine(p, stamp) == Err(ErrInvalid)
    ensures ParseLine(p, "") == Err(ErrInvalid)
  {
    FieldsJoin([stamp, level]);
    FieldsJoin([stamp]);
    assert Join([stamp, level], " ") == stamp + " " + level;
  }

  /** With enough fields, a timestamp the parser rejects is reported. */
  lemma ParseLineBadTime(p: Parsers, stamp: string, level: string, words: seq<string>)
    requires IsWord(stamp) && IsWord(level) && |words| >= 1
    requires forall w :: w in words ==> IsWord(w)
    requires p.parseTime(stamp) == None
    ensures ParseLine(p, Join([stamp, level] + words, " ")) == Err(TimeError(stamp))
  {
    var ws := [stamp, level] + words;
    FieldsOfWords(stamp, level, words);
    ParseLineOfFields(p, Join(ws, " "), ws);
  }

  // ---------------------------------------------------------------------
  // Format detection

  /** `detectFormat`, on the trimmed line: braces at both ends mean JSON,
      otherwise an `=` means logfmt, otherwise plain. */
  function DetectFormat(line: string): (r: Format)
    ensures r == Json || r == Logfmt || r == Plain
  {
    var trimmed := TrimSpace(line);
    if HasPrefix(trimmed, "{") && HasSuffix(trimmed, "}") then Json
    else if Contains(trimmed, "=") then Logfmt
    else Plain
  }

  lemma TrimLeftIdle(s: string)
    requires s == [] || !IsSpace(s[0])
    ensures TrimLeft(s) == s
  {
  }

  lemma TrimRightIdle(s: string)
    requires s == [] || !IsSpace(s[|s| - 1])
    ensures TrimRight(s) == s
  {
  }

  /** Trimming twice is trimming once, so detection ignores surrounding
      white space. */
  lemma DetectTrimmed(line: string)
    ensures TrimSpace(TrimSpace(line)) == TrimSpace(line)
    ensures DetectFormat(TrimSpace(line)) == DetectFormat(line)
  {
    var t := TrimSpace(line);
    TrimLeftIdle(t);
    assert TrimLeft(t) == t;
    TrimRightIdle(t);
    assert TrimSpace(t) == TrimRight(t) == t;
  }

  /** `parseLineWithFormat`; in auto mode the line's own format decides. */
  function ParseLineWithFormat(p: Parsers, line: string, format: Format): Result<LogEntry>
    decreases if format.Auto? then 1 else 0
  {
    match format
    case Json => p.parseJson(line)
    case Logfmt => LogfmtEntry(p, line)
    case Plain => ParseLine(p, line)
    case Auto => ParseLineWithFormat(p, line, DetectFormat(line))
    case Unknown(_) => Err("unknown format")
  }

  /** Parsing in auto mode is parsing in the detected format, which is
      always a concrete one. */
  lemma ParseFormatDispatch(p: Parsers, line: string)
    ensures ParseLineWithFormat(p, line, Auto) == ParseLineWithFormat(p, line, DetectFormat(line))
    ensures !DetectFormat(line).Auto?
  {
  }

  /** A format outside the four is always an error. */
  lemma UnknownFormatFails(p: Parsers, line: string, name: string)
    ensures ParseLineWithFormat(p, line, Unknown(name)) == Err("unknown format")
  {
  }

  // ---------------------------------------------------------------------
  // logfmt

  /** The first position at or after `from` holding one of `stops`, or the
      length when there is none. */
  function NextOf(s: string, from: nat, stops: set<char>): (j: nat)
    requires from <= |s|
    ensures from <= j <= |s|
    ensures j < |s| ==> s[j] in stops
    decreases |s| - from
  {
    if from == |s| || s[from] in stops then from else NextOf(s, from + 1, stops)
  }

  /** No stop lies before the one found. */
  lemma {:induction false} NextOfFirst(s: string, from: nat, stops: set<char>)
    requires from <= |s|
    ensures forall k :: from <= k < NextOf(s, from, stops) ==> s[k] !in stops
    decreases |s| - from
  {
    if from < |s| && s[from] !in stops {
      NextOfFirst(s, from + 1, stops);
    }
  }

  lemma NextOfIs(s: string, from: nat, j: nat, stops: set<char>)
    requires from <= j <= |s|
    requires j < |s| ==> s[j] in stops
    requires forall k :: from <= k < j ==> s[k] !in stops
    ensures NextOf(s, from, stops) == j
  {
    var r := NextOf(s, from, stops);
    NextOfFirst(s, from, stops);
    assert r <= j;
    assert j <= r;
  }

  /** Scanning a suffix finds the same stop, shifted. */
  lemma NextOfShift(line: string, start: nat, from: nat, stops: set<char>)
    requires start <= from <= |line|
    ensures NextOf(line[start..], from - start, stops) == NextOf(line, from, stops) - start
  {
    var r := NextOf(line, from, stops);
    NextOfFirst(line, from, stops);
    NextOfIs(line[start..], from - start, r - start, stops);
  }

  const KeyStops: set<char> := {'=', ' '}
  const WordStops: set<char> := {' '}
  const QuoteStops: set<char> := {'"'}

  /** What one pass of the outer loop of `parseLogfmtFields` does from
      position 0 of `s`: the pairs it stores (none or one) and where the
      next pass starts. */
  datatype Step = Step(stored: seq<(string, string)>, next: nat)

  /** A space is skipped; a token without `=` is skipped up to the next
      space; otherwise the key runs to `=`, and the value either runs in
      double quotes to the next quote (or the end) or up to the next space.
      A pair with an empty key is not stored, except that a line ending
      just after `=` stores its key with an empty value whatever the key. */
  function TokenAt(s: string): (t: Step)
    requires s != []
    ensures 0 < t.next <= |s|
  {
    if s[0] == ' ' then Step([], 1)
    else
      var j := NextOf(s, 0, KeyStops);
      if j == |s| || s[j] != '=' then Step([], NextOf(s, j, WordStops))
      else
        var key := s[..j];
        if j + 1 == |s| then Step([(key, "")], |s|)
        else if s[j + 1] == '"' then
          var e := NextOf(s, j + 2, QuoteStops);
          Step(if key != "" then [(key, s[j + 2..e])] else [], if e < |s| then e + 1 else e)
        else
          var e := NextOf(s, j + 1, WordStops);
          Step(if key != "" then [(key, s[j + 1..e])] else [], e)
  }

  /** The key/value pairs `parseLogfmtFields` stores, in the order it
      stores them. */
  function Pairs(s: string): seq<(string, string)>
    decreases |s|
  {
    if s == [] then []
    else
      var t := TokenAt(s);
      t.stored + Pairs(s[t.next..])
  }

  lemma PairsAfterSpaces(s: string, i: nat)
    requires i < |s| && s[i] == ' '
    ensures Pairs(s[i..]) == Pairs(s[i + 1..])
  {
    assert s[i..][1..] == s[i + 1..];
  }

  /** Writing pairs into a map one after another: a later key overwrites. */
  function StoreInto(m: map<string, string>, ps: seq<(string, string)>): map<string, string> {
    if ps == [] then m
    else
      var last := ps[|ps| - 1];
      StoreInto(m, ps[..|ps| - 1])[last.0 := last.1]
  }

  /** The value of the last pair with key `k`, if any. */
  function LastValue(ps: seq<(string, string)>, k: string): Option<string> {
    if ps == [] then None
    else if ps[|ps| - 1].0 == k then Some(ps[|ps| - 1].1)
    else LastValue(ps[..|ps| - 1], k)
  }

  /** `parseLogfmtFields`. */
  function LogfmtFields(line: string): map<string, string> {
    StoreInto(map[], Pairs(line))
  }

  /** A stored key holds the value of its last pair; a key with no pair is
      absent. */
  lemma {:induction false} StoreLast(ps: seq<(string, string)>, k: string)
    ensures k in StoreInto(map[], ps) <==> LastValue(ps, k).Some?
    ensures k in StoreInto(map[], ps) ==> StoreInto(map[], ps)[k] == LastValue(ps, k).value
  {
    if ps != [] {
      StoreLast(ps[..|ps| - 1], k);
    }
  }

  /** The scanning loops of `parseLogfmtFields`: advance while the current
      byte is not a stop. */
  method ScanTo(line: string, from: nat, stops: set<char>) returns (i: nat)
    requires from <= |line|
    ensures i == NextOf(line, from, stops)
  {
    i := from;
    while i < |line| && line[i] !in stops
      invariant from <= i <= |line|
      invariant forall k :: from <= k < i ==> line[k] !in stops
    {
      i := i + 1;
    }
    NextOfIs(line, from, i, stops);
  }

  /** The four kinds of token, each read off `TokenAt` once. */
  lemma TokenBare(s: string, j: nat, e: nat)
    requires s != [] && s[0] != ' '
    requires j == NextOf(s, 0, KeyStops) && (j == |s| || s[j] != '=')
    requires e == NextOf(s, j, WordStops)
    ensures TokenAt(s) == Step([], e)
  {
  }

  lemma TokenTrailing(s: string, j: nat)
    requires s != [] && s[0] != ' '
    requires j == NextOf(s, 0, KeyStops) && j + 1 == |s| && s[j] == '='
    ensures TokenAt(s) == Step([(s[..j], "")], |s|)
  {
  }

  lemma TokenQuoted(s: string, j: nat, e: nat)
    requires s != [] && s[0] != ' '
    requires j == NextOf(s, 0, KeyStops) && j + 1 < |s| && s[j] == '=' && s[j + 1] == '"'
    requires e == NextOf(s, j + 2, QuoteStops)
    ensures TokenAt(s) == Step(if s[..j] != "" then [(s[..j], s[j + 2..e])] else [], if e < |s| then e + 1 else e)
  {
  }

  lemma TokenUnquoted(s: string, j: nat, e: nat)
    requires s != [] && s[0] != ' '
    requires j == NextOf(s, 0, KeyStops) && j + 1 < |s| && s[j] == '=' && s[j + 1] != '"'
    requires e == NextOf(s, j + 1, WordStops)
    ensures TokenAt(s) == Step(if s[..j] != "" then [(s[..j], s[j + 1..e])] else [], e)
  {
  }

  lemma PairsFrom(line: string, i: nat, next: nat, stored: seq<(string, string)>)
    requires i < next <= |line|
    requires TokenAt(line[i..]) == Step(stored, next - i)
    ensures Pairs(line[i..]) == stored + Pairs(line[next..])
  {
    assert line[i..][next - i..] == line[next..];
  }

  /** One pass of the outer loop of `parseLogfmtFields` from the start of a
      token: the pair it stores, if any, where the next pass starts, and
      whether the line ended right after `=`. */
  method NextPair(line: string, start: nat) returns (pair: Option<(string, string)>, next: nat, last: bool)
    requires start < |line| && line[start] != ' '
    ensures start < next <= |line|
    ensures Pairs(line[start..]) == (if pair.Some? then [pair.value] else []) + Pairs(line[next..])
    ensures last ==> next == |line|
  {
    pair, next, last := TokenPass(line, start);
    PairsFrom(line, start, next, if pair.Some? then [pair.value] else []);
  }

  method TokenPass(line: string, start: nat) returns (pair: Option<(string, string)>, next: nat, last: bool)
    requires start < |line| && line[start] != ' '
    ensures start < next <= |line|
    ensures TokenAt(line[start..]) == Step(if pair.Some? then [pair.value] else [], next - start)
    ensures last ==> next == |line|
  {
    ghost var s := line[start..];
    var i := ScanTo(line, start, KeyStops);
    NextOfShift(line, start, start, KeyStops);
    ghost var j := i - start;
    if i >= |line| || line[i] != '=' {
      var e := ScanTo(line, i, WordStops);
      NextOfShift(line, start, i, WordStops);
      TokenBare(s, j, e - start);
      return None, e, false;
    }
    var key := line[start..i];
    assert key == s[..j];
    if i + 1 >= |line| {
      TokenTrailing(s, j);
      return Some((key, "")), i + 1, true;
    }
    pair, next := ValuePair(line, start, i, key);
    last := false;
  }

  lemma SliceOfSuffix(line: string, start: nat, a: nat, b: nat)
    requires start <= a <= b <= |line|
    ensures line[a..b] == line[start..][a - start..b - start]
  {
  }

  /** The value part of a pass: `line[eq]` is the `=` after the key. */
  method ValuePair(line: string, start: nat, eq: nat, key: string) returns (pair: Option<(string, string)>, next: nat)
    requires start <= eq && eq + 1 < |line| && line[start] != ' ' && line[eq] == '='
    requires NextOf(line[start..], 0, KeyStops) == eq - start && key == line[start..eq]
    ensures start < next <= |line|
    ensures TokenAt(line[start..]) == Step(if pair.Some? then [pair.value] else [], next - start)
  {
    ghost var s := line[start..];
    ghost var j := eq - start;
    assert key == s[..j];
    var i := eq + 1;
    var quoted := line[i] == '"';
    if quoted {
      i := i + 1;
    }
    var startVal := i;
    var stops := if quoted then QuoteStops else WordStops;
    i := ScanTo(line, i, stops);
    assert startVal <= i;
    NextOfShift(line, start, startVal, stops);
    var val := line[startVal..i];
    ghost var e := i - start;
    SliceOfSuffix(line, start, startVal, i);
    pair := if key != "" then Some((key, val)) else None;
    if quoted {
      TokenQuoted(s, j, e);
      if i < |line| {
        i := i + 1;
      }
    } else {
      TokenUnquoted(s, j, e);
    }
    next := i;
  }

  lemma StoreOne(done: seq<(string, string)>, pair: Option<(string, string)>)
    ensures pair.None? ==> StoreInto(map[], done + []) == StoreInto(map[], done)
    ensures pair.Some? ==> StoreInto(map[], done + [pair.value]) == StoreInto(map[], done)[pair.value.0 := pair.value.1]
  {
    assert done + [] == done;
    if pair.Some? {
      assert (done + [pair.value])[..|done|] == done;
    }
  }

  /** One pass of the outer loop of `parseLogfmtFields` from position
      `i`: skip spaces, then read one token; `stop` when the line has
      ended. */
  method NextPass(line: string, i: nat) returns (pair: Option<(string, string)>, next: nat, stop: bool)
    requires i < |line|
    ensures i < next <= |line|
    ensures Pairs(line[i..]) == (if pair.Some? then [pair.value] else []) + Pairs(line[next..])
    ensures stop ==> next == |line|
  {
    var j := i;
    while j < |line| && line[j] == ' '
      invariant i <= j <= |line|
      invariant Pairs(line[i..]) == Pairs(line[j..])
    {
      PairsAfterSpaces(line, j);
      j := j + 1;
    }
    if j >= |line| {
      NoPairsAtEnd(line, j);
      return None, j, true;
    }
    pair, next, stop := NextPair(line, j);
  }

  lemma NoPairsAtEnd(line: string, j: nat)
    requires j == |line|
    ensures Pairs(line[j..]) == []
  {
    assert line[j..] == [];
  }

  lemma SplitAt<T>(all: seq<T>, done: seq<T>, stored: seq<T>, rest: seq<T>, after: seq<T>)
    requires all == done + rest && rest == stored + after
    ensures all == (done + stored) + after
  {
  }

  /** The cursor loop of `parseLogfmtFields`, writing into `result`. */
  method ParseLogfmtFields(line: string) returns (result: map<string, string>)
    ensures result == LogfmtFields(line)
  {
    result := map[];
    ghost var done: seq<(string, string)> := [];
    var i := 0;
    var n := |line|;
    assert line[0..] == line;
    while i < n
      invariant 0 <= i <= n
      invariant Pairs(line) == done + Pairs(line[i..])
      invariant result == StoreInto(map[], done)
      decreases n - i
    {
      var pair, next, stop := NextPass(line, i);
      ghost var stored := if pair.Some? then [pair.value] else [];
      SplitAt(Pairs(line), done, stored, Pairs(line[i..]), Pairs(line[next..]));
      StoreOne(done, pair);
      if pair.Some? {
        result := result[pair.value.0 := pair.value.1];
      }
      done := done + stored;
      i := next;
      if stop {
        break;
      }
    }
    assert line[n..] == [];
    assert done + [] == done;
  }

  /** A pair written as `key="value"`. */
  function Render(p: (string, string)): string {
    p.0 + "=\"" + p.1 + "\""
  }

  function RenderAll(ps: seq<(string, string)>): string
    decreases |ps|
  {
    if ps == [] then ""
    else if |ps| == 1 then Render(ps[0])
    else Render(ps[0]) + " " + RenderAll(ps[1..])
  }

  /** A pair that survives writing: a non-empty key with no `=` or space,
      and a value with no double quote. */
  predicate GoodPair(p: (string, string)) {
    p.0 != "" && '=' !in p.0 && ' ' !in p.0 && '"' !in p.1
  }

  lemma PairsRendered(p: (string, string), tail: string)
    requires GoodPair(p)
    ensures Pairs(Render(p) + tail) == [p] + Pairs(tail)
  {
    var s := Render(p) + tail;
    assert s == p.0 + "=\"" + p.1 + "\"" + tail;
    QuotedPairToken(p, tail);
    assert s[|p.0| + 3 + |p.1|..] == tail;
  }

  lemma QuotedPairToken(p: (string, string), tail: string)
    requires GoodPair(p)
    ensures TokenAt(p.0 + "=\"" + p.1 + "\"" + tail) == Step([p], |p.0| + 3 + |p.1|)
  {
    var k := p.0;
    var v := p.1;
    var s := k + "=\"" + v + "\"" + tail;
    assert forall i :: 0 <= i < |k| ==> s[i] == k[i];
    assert s[0] == k[0];
    NextOfIs(s, 0, |k|, KeyStops);
    assert s[|k|] == '=' && s[|k| + 1] == '"';
    assert forall i :: |k| + 2 <= i < |k| + 2 + |v| ==> s[i] == v[i - |k| - 2];
    assert s[|k| + 2 + |v|] == '"';
    NextOfIs(s, |k| + 2, |k| + 2 + |v|, QuoteStops);
    assert s[|k| + 2..|k| + 2 + |v|] == v;
    assert s[..|k|] == k;
  }

  /** Writing good pairs as `key="value"` separated by spaces and scanning
      the text gives the pairs back. */
  lemma {:induction false} LogfmtRoundTrip(ps: seq<(string, string)>)
    requires forall p :: p in ps ==> GoodPair(p)
    ensures Pairs(RenderAll(ps)) == ps
    decreases |ps|
  {
    if |ps| == 1 {
      PairsRendered(ps[0], "");
      assert Render(ps[0]) + "" == Render(ps[0]);
    } else if |ps| > 1 {
      var rest := RenderAll(ps[1..]);
      LogfmtRoundTrip(ps[1..]);
      PairsRendered(ps[0], " " + rest);
      assert Render(ps[0]) + " " + rest == Render(ps[0]) + (" " + rest);
      PairsAfterSpace(rest);
      assert [ps[0]] + ps[1..] == ps;
    }
  }

  /** So the fields of such a line hold, for every key, the value of its
      last pair: a later duplicate key overwrites an earlier one. */
  lemma LogfmtFieldsOf(ps: seq<(string, string)>, k: string)
    requires forall p :: p in ps ==> GoodPair(p)
    ensures k in LogfmtFields(RenderAll(ps)) <==> LastValue(ps, k).Some?
    ensures k in LogfmtFields(RenderAll(ps)) ==> LogfmtFields(RenderAll(ps))[k] == LastValue(ps, k).value
  {
    LogfmtRoundTrip(ps);
    StoreLast(ps, k);
  }

  /** A token with no `=` is skipped. */
  lemma SkipBareToken(w: string, rest: string)
    requires w != "" && '=' !in w && ' ' !in w
    ensures Pairs(w + " " + rest) == Pairs(rest)
    ensures Pairs(w) == []
  {
    var s := w + " " + rest;
    assert forall i :: 0 <= i < |w| ==> s[i] == w[i];
    assert s[0] == w[0] && s[|w|] == ' ';
    NextOfIs(s, 0, |w|, KeyStops);
    NextOfIs(s, |w|, |w|, WordStops);
    assert TokenAt(s) == Step([], |w|);
    assert s[|w|..] == " " + rest;
    PairsAfterSpace(rest);
    NextOfIs(w, 0, |w|, KeyStops);
    NextOfIs(w, |w|, |w|, WordStops);
    assert TokenAt(w) == Step([], |w|);
    assert w[|w|..] == [];
  }

  /** A bare value runs to the next space; with an empty key the pair is
      dropped. */
  lemma UnquotedPair(k: string, v: string, rest: string)
    requires '=' !in k && ' ' !in k
    requires v != "" && ' ' !in v && v[0] != '"'
    ensures Pairs(k + "=" + v + " " + rest) == (if k != "" then [(k, v)] else []) + Pairs(rest)
  {
    var s := k + "=" + v + " " + rest;
    UnquotedToken(k, v, rest);
    assert s[|k| + 1 + |v|..] == " " + rest;
    PairsAfterSpace(rest);
  }

  lemma PairsAfterSpace(rest: string)
    ensures Pairs(" " + rest) == Pairs(rest)
  {
    PairsAfterSpaces(" " + rest, 0);
    assert (" " + rest)[1..] == rest;
    assert (" " + rest)[0..] == " " + rest;
  }

  lemma UnquotedToken(k: string, v: string, rest: string)
    requires '=' !in k && ' ' !in k
    requires v != "" && ' ' !in v && v[0] != '"'
    ensures TokenAt(k + "=" + v + " " + rest) == Step(if k != "" then [(k, v)] else [], |k| + 1 + |v|)
  {
    var s := k + "=" + v + " " + rest;
    assert forall i :: 0 <= i < |k| ==> s[i] == k[i];
    assert s[|k|] == '=' && s[|k| + 1] == v[0];
    assert s[0] != ' ' by {
      if k != [] {
        assert s[0] == k[0];
      }
    }
    NextOfIs(s, 0, |k|, KeyStops);
    assert forall i :: |k| + 1 <= i < |k| + 1 + |v| ==> s[i] == v[i - |k| - 1];
    assert s[|k| + 1 + |v|] == ' ';
    NextOfIs(s, |k| + 1, |k| + 1 + |v|, WordStops);
    assert s[..|k|] == k;
    assert s[|k| + 1..|k| + 1 + |v|] == v;
  }

  /** A line ending in `key=` stores the key with an empty value, even an
      empty key: `=` alone stores the empty key. */
  lemma TrailingKey(k: string)
    requires '=' !in k && ' ' !in k
    ensures Pairs(k + "=") == [(k, "")]
    ensures LogfmtFields("=") == map["" := ""]
  {
    var s := k + "=";
    assert forall i :: 0 <= i < |k| ==> s[i] == k[i];
    assert s[0] != ' ' by {
      if k != [] {
        assert s[0] == k[0];
      }
    }
    NextOfIs(s, 0, |k|, KeyStops);
    assert s[..|k|] == k;
    assert TokenAt(s) == Step([(k, "")], |s|);
    assert s[|s|..] == [];
    NextOfIs("=", 0, 0, KeyStops);
    assert "="[..0] == "";
    assert TokenAt("=") == Step([("", "")], 1);
    assert "="[1..] == [];
    assert Pairs("=") == [("", "")];
    assert [("", "")][..0] == [];
  }

  /** An empty key is stored only by a trailing `=`: it is then the last
      pair and its value is empty. */
  lemma {:induction false} EmptyKeyOnlyAtEnd(s: string)
    ensures forall i :: 0 <= i < |Pairs(s)| && Pairs(s)[i].0 == "" ==>
      i == |Pairs(s)| - 1 && Pairs(s)[i].1 == ""
    decreases |s|
  {
    if s != [] {
      var t := TokenAt(s);
      EmptyKeyOnlyAtEnd(s[t.next..]);
      if t.stored != [] && t.stored[0].0 == "" {
        assert t.next == |s|;
        assert s[t.next..] == [];
      }
    }
  }

  /** `firstStringFromStringMap`: the value of the first listed key that
      is present with a non-empty value, else the empty string. */
  function FirstNonEmpty(m: map<string, string>, keys: seq<string>): (r: string)
    ensures r != "" <==> exists i :: 0 <= i < |keys| && keys[i] in m && m[keys[i]] != ""
    ensures r != "" ==> exists i :: (0 <= i < |keys| && keys[i] in m && m[keys[i]] == r
      && forall j :: 0 <= j < i ==> !(keys[j] in m && m[keys[j]] != ""))
  {
    if keys == [] then ""
    else if keys[0] in m && m[keys[0]] != "" then m[keys[0]]
    else
      var r := FirstNonEmpty(m, keys[1..]);
      assert forall i :: 1 <= i < |keys| ==> keys[i] == keys[1..][i - 1];
      if r != "" then
        var i :| 0 <= i < |keys[1..]| && keys[1..][i] in m && m[keys[1..][i]] == r
          && forall j :: 0 <= j < i ==> !(keys[1..][j] in m && m[keys[1..][j]] != "");
        assert keys[i + 1] in m && m[keys[i + 1]] == r;
        r
      else r
  }

  method FirstStringFromStringMap(m: map<string, string>, keys: seq<string>) returns (r: string)
    ensures r == FirstNonEmpty(m, keys)
  {
    for i := 0 to |keys|
      invariant FirstNonEmpty(m, keys) == FirstNonEmpty(m, keys[i..])
    {
      var key := keys[i];
      assert keys[i..][1..] == keys[i + 1..];
      if key in m && m[key] != "" {
        return m[key];
      }
    }
    return "";
  }

  const TimeKeys: seq<string> := ["timestamp", "time", "ts"]
  const LevelKeys: seq<string> := ["level", "severity"]
  const MessageKeys: seq<string> := ["message", "msg"]

  /** `parseLogfmtLine`: the timestamp, level and message under their
      first present non-empty key; any of them missing is an error. */
  function LogfmtEntry(p: Parsers, line: string): Result<LogEntry> {
    var fields := LogfmtFields(line);
    if |fields| == 0 then Err(ErrInvalid)
    else
      var stamp := FirstNonEmpty(fields, TimeKeys);
      var level := FirstNonEmpty(fields, LevelKeys);
      var message := FirstNonEmpty(fields, MessageKeys);
      if stamp == "" || level == "" || message == "" then Err(ErrInvalid)
      else match p.parseTime(stamp)
        case None => Err(TimeError(stamp))
        case Some(t) => Ok(LogEntry(t, level, message))
  }

  method ParseLogfmtLine(p: Parsers, line: string) returns (r: Result<LogEntry>)
    ensures r == LogfmtEntry(p, line)
  {
    var fields := ParseLogfmtFields(line);
    if |fields| == 0 {
      return Err(ErrInvalid);
    }
    var stamp := FirstStringFromStringMap(fields, TimeKeys);
    var level := FirstStringFromStringMap(fields, LevelKeys);
    var message := FirstStringFromStringMap(fields, MessageKeys);
    if stamp == "" || level == "" || message == "" {
      return Err(ErrInvalid);
    }
    match p.parseTime(stamp) {
      case None => r := Err(TimeError(stamp));
      case Some(t) => r := Ok(LogEntry(t, level, message));
    }
  }

  /** A logfmt line succeeds only when a timestamp, a level and a message
      are all present and non-empty, and then carries exactly those. */
  lemma LogfmtEntryNeeds(p: Parsers, line: string)
    ensures LogfmtEntry(p, line).Ok? <==>
      FirstNonEmpty(LogfmtFields(line), TimeKeys) != ""
      && FirstNonEmpty(LogfmtFields(line), LevelKeys) != ""
      && FirstNonEmpty(LogfmtFields(line), MessageKeys) != ""
      && p.parseTime(FirstNonEmpty(LogfmtFields(line), TimeKeys)).Some?
    ensures LogfmtEntry(p, line).Ok? ==>
      LogfmtEntry(p, line).value.level == FirstNonEmpty(LogfmtFields(line), LevelKeys)
      && LogfmtEntry(p, line).value.message == FirstNonEmpty(LogfmtFields(line), MessageKeys)
  {
    var fields := LogfmtFields(line);
    if FirstNonEmpty(fields, TimeKeys) != "" {
      assert fields != map[];
    }
  }

  /** `ts="…" level="…" msg="…"` parses to the entry it describes. */
  lemma LogfmtLineRoundTrip(p: Parsers, stamp: string, t: int, level: string, message: string)
    requires stamp != "" && level != "" && message != ""
    requires '"' !in stamp && '"' !in level && '"' !in message
    requires p.parseTime(stamp) == Some(t)
    ensures LogfmtEntry(p, RenderAll([("ts", stamp), ("level", level), ("msg", message)]))
         == Ok(LogEntry(t, level, message))
  {
    var m := LogfmtFields(RenderAll([("ts", stamp), ("level", level), ("msg", message)]));
    ThreePairFields(stamp, level, message);
    assert FirstNonEmpty(m, TimeKeys) == stamp by {
      FirstNonEmptyAt(m, TimeKeys, 2);
    }
    assert FirstNonEmpty(m, LevelKeys) == level by {
      FirstNonEmptyAt(m, LevelKeys, 0);
    }
    assert FirstNonEmpty(m, MessageKeys) == message by {
      FirstNonEmptyAt(m, MessageKeys, 1);
    }
    assert m != map[] by {
      assert "ts" in m;
    }
  }

  /** The fields of `ts="…" level="…" msg="…"`, key by key. */
  lemma ThreePairFields(stamp: string, level: string, message: string)
    requires '"' !in stamp && '"' !in level && '"' !in message
    ensures var m := LogfmtFields(RenderAll([("ts", stamp), ("level", level), ("msg", message)]));
      "timestamp" !in m && "time" !in m && "message" !in m
      && "ts" in m && m["ts"] == stamp
      && "level" in m && m["level"] == level
      && "msg" in m && m["msg"] == message
  {
    var ps := [("ts", stamp), ("level", level), ("msg", message)];
    LastValueNone(ps, "timestamp");
    LastValueNone(ps, "time");
    LastValueNone(ps, "message");
    LastValueAt(ps, "ts", 0);
    LastValueAt(ps, "level", 1);
    LastValueAt(ps, "msg", 2);
    LogfmtFieldsOf(ps, "timestamp");
    LogfmtFieldsOf(ps, "time");
    LogfmtFieldsOf(ps, "ts");
    LogfmtFieldsOf(ps, "level");
    LogfmtFieldsOf(ps, "message");
    LogfmtFieldsOf(ps, "msg");
  }

  /** Without a level pair the line is rejected. */
  lemma LogfmtLineMissingLevel(p: Parsers, stamp: string, message: string)
    requires stamp != "" && message != ""
    requires '"' !in stamp && '"' !in message
    ensures LogfmtEntry(p, RenderAll([("ts", stamp), ("msg", message)])) == Err(ErrInvalid)
  {
    var qs := [("ts", stamp), ("msg", message)];
    var m := LogfmtFields(RenderAll(qs));
    LastValueNone(qs, "level");
    LastValueNone(qs, "severity");
    LogfmtFieldsOf(qs, "level");
    LogfmtFieldsOf(qs, "severity");
    assert FirstNonEmpty(m, LevelKeys) == "";
  }

  lemma {:induction false} LastValueAt(ps: seq<(string, string)>, k: string, i: nat)
    requires i < |ps| && ps[i].0 == k
    requires forall j :: i < j < |ps| ==> ps[j].0 != k
    ensures LastValue(ps, k) == Some(ps[i].1)
    decreases |ps|
  {
    if i < |ps| - 1 {
      LastValueAt(ps[..|ps| - 1], k, i);
    }
  }

  lemma {:induction false} LastValueNone(ps: seq<(string, string)>, k: string)
    requires forall j :: 0 <= j < |ps| ==> ps[j].0 != k
    ensures LastValue(ps, k) == None
    decreases |ps|
  {
    if ps != [] {
      LastValueNone(ps[..|ps| - 1], k);
    }
  }

  /** The first listed key present with a non-empty value decides. */
  lemma FirstNonEmptyAt(m: map<string, string>, keys: seq<string>, i: nat)
    requires i < |keys| && keys[i] in m && m[keys[i]] != ""
    requires forall j :: 0 <= j < i ==> !(keys[j] in m && m[keys[j]] != "")
    ensures FirstNonEmpty(m, keys) == m[keys[i]]
  {
    var r := FirstNonEmpty(m, keys);
    var i' :| 0 <= i' < |keys| && keys[i'] in m && m[keys[i']] == r
      && forall j :: 0 <= j < i' ==> !(keys[j] in m && m[keys[j]] != "");
    assert i' == i;
  }

  // ---------------------------------------------------------------------
  // Reading lines

  predicate Blank(line: string) {
    TrimSpace(line) == ""
  }

  function NotBlankF(): string -> bool {
    line => !Blank(line)
  }

  function NonBlank(lines: seq<string>): seq<string> {
    Select(lines, NotBlankF())
  }

  /** The format the reader settles on: in auto mode the format of the
      first non-blank line, otherwise the one asked for. */
  function DetectedFormat(lines: seq<string>, format: Format): Format {
    if format == Auto && NonBlank(lines) != [] then DetectFormat(NonBlank(lines)[0]) else format
  }

  function ParserFor(p: Parsers, format: Format): string -> Result<LogEntry> {
    line => ParseLineWithFormat(p, line, format)
  }

  /** The entries of the lines that parse, in line order. */
  function ParsedAll(parse: string -> Result<LogEntry>, lines: seq<string>): seq<LogEntry> {
    if lines == [] then []
    else
      var r := parse(lines[|lines| - 1]);
      ParsedAll(parse, lines[..|lines| - 1]) + (if r.Ok? then [r.value] else [])
  }

  /** What `ReadLogReaderWithFormat` returns for the lines a reader
      yields. */
  function ReadOf(p: Parsers, lines: seq<string>, format: Format): seq<LogEntry> {
    ParsedAll(ParserFor(p, DetectedFormat(lines, format)), NonBlank(lines))
  }

  /** What one more line does to the non-blank lines and the settled
      format. */
  lemma ReadStep(lines: seq<string>, i: nat, format: Format)
    requires i < |lines|
    ensures Blank(lines[i]) ==> (NonBlank(lines[..i + 1]) == NonBlank(lines[..i])
      && DetectedFormat(lines[..i + 1], format) == DetectedFormat(lines[..i], format))
    ensures !Blank(lines[i]) ==> NonBlank(lines[..i + 1]) == NonBlank(lines[..i]) + [lines[i]]
    ensures !Blank(lines[i]) ==>
      DetectedFormat(lines[..i + 1], format) ==
        (if format == Auto && NonBlank(lines[..i]) == [] then DetectFormat(lines[i])
         else DetectedFormat(lines[..i], format))
  {
    assert lines[..i + 1] == lines[..i] + [lines[i]];
    assert lines[..i + 1][..i] == lines[..i];
    var before := NonBlank(lines[..i]);
    if !Blank(lines[i]) {
      assert (before + [lines[i]])[..|before|] == before;
      if before != [] {
        assert (before + [lines[i]])[0] == before[0];
      }
    }
  }

  lemma ParsedSnoc(parse: string -> Result<LogEntry>, ls: seq<string>, l: string)
    ensures ParsedAll(parse, ls + [l]) == ParsedAll(parse, ls) + (if parse(l).Ok? then [parse(l).value] else [])
  {
    assert (ls + [l])[..|ls|] == ls;
  }

  method ReadLogReaderWithFormat(p: Parsers, lines: seq<string>, format: Format) returns (entries: seq<LogEntry>)
    ensures entries == ReadOf(p, lines, format)
  {
    entries := [];
    var detected := format;
    var seenFirstLine := false;
    for i := 0 to |lines|
      invariant seenFirstLine <==> NonBlank(lines[..i]) != []
      invariant detected == DetectedFormat(lines[..i], format)
      invariant entries == ParsedAll(ParserFor(p, detected), NonBlank(lines[..i]))
    {
      seenFirstLine, detected, entries := ReadLine(p, lines, i, format, seenFirstLine, detected, entries);
    }
    assert lines[..|lines|] == lines;
  }

  /** One turn of the reader's loop: a blank line is skipped, the first
      non-blank one fixes the format in auto mode, and a line that parses
      adds its entry. */
  method ReadLine(p: Parsers, lines: seq<string>, i: nat, format: Format,
                  seenFirstLine: bool, detected: Format, entries: seq<LogEntry>)
    returns (seen': bool, detected': Format, entries': seq<LogEntry>)
    requires i < |lines|
    requires seenFirstLine <==> NonBlank(lines[..i]) != []
    requires detected == DetectedFormat(lines[..i], format)
    requires entries == ParsedAll(ParserFor(p, detected), NonBlank(lines[..i]))
    ensures seen' <==> NonBlank(lines[..i + 1]) != []
    ensures detected' == DetectedFormat(lines[..i + 1], format)
    ensures entries' == ParsedAll(ParserFor(p, detected'), NonBlank(lines[..i + 1]))
  {
    seen', detected', entries' := seenFirstLine, detected, entries;
    var line := lines[i];
    ReadStep(lines, i, format);
    if TrimSpace(line) == "" {
      return;
    }
    assert NonBlank(lines[..i + 1]) != [] by {
      assert NonBlank(lines[..i + 1]) == NonBlank(lines[..i]) + [line];
    }
    if !seen' {
      seen' := true;
      if format == Auto {
        detected' := DetectFormat(line);
      }
    }
    var r := ParseLineWithFormat(p, line, detected');
    ParsedSnoc(ParserFor(p, detected'), NonBlank(lines[..i]), line);
    if r.Err? {
      return;
    }
    entries' := entries' + [r.value];
  }

  /** `ReadLogFileWithFormat`: opening the file and scanning its lines is
      `open`, which gives the lines or the error of either step; the lines
      then go through the reader. */
  function ReadFileOf(p: Parsers, open: string -> Result<seq<string>>, path: string, format: Format): Result<seq<LogEntry>> {
    match open(path)
    case Err(m) => Err(m)
    case Ok(lines) => Ok(ReadOf(p, lines, format))
  }

  method ReadLogFileWithFormat(p: Parsers, open: string -> Result<seq<string>>, path: string, format: Format)
    returns (r: Result<seq<LogEntry>>)
    ensures r.Err? <==> open(path).Err?
    ensures r.Err? ==> r.msg == open(path).msg
    ensures r.Ok? ==> r.value == ReadOf(p, open(path).value, format)
  {
    var lines := open(path);
    if lines.Err? {
      return Err(lines.msg);
    }
    var entries := ReadLogReaderWithFormat(p, lines.value, format);
    return Ok(entries);
  }

  /** The entries are the parses of the given lines that succeed, and
      nothing else. */
  lemma {:induction false} ParsedMembers(parse: string -> Result<LogEntry>, lines: seq<string>)
    ensures forall x :: x in ParsedAll(parse, lines) <==> exists l :: l in lines && parse(l) == Ok(x)
  {
    if lines != [] {
      var init := lines[..|lines| - 1];
      ParsedMembers(parse, init);
      LastSplit(lines);
      forall x
        ensures x in ParsedAll(parse, lines) <==> exists l :: l in lines && parse(l) == Ok(x)
      {
        if exists l :: l in lines && parse(l) == Ok(x) {
          var l :| l in lines && parse(l) == Ok(x);
          if l != lines[|lines| - 1] {
            assert l in init;
          }
        }
      }
    }
  }

  /** The reader returns the parse of every non-blank line that parses in
      the settled format, and nothing else: blank and malformed lines are
      skipped. */
  lemma ReadMembers(p: Parsers, lines: seq<string>, format: Format)
    ensures forall x :: x in ReadOf(p, lines, format) <==>
      exists l :: l in lines && !Blank(l) && ParseLineWithFormat(p, l, DetectedFormat(lines, format)) == Ok(x)
  {
    var parse := ParserFor(p, DetectedFormat(lines, format));
    ParsedMembers(parse, NonBlank(lines));
    SelectMembers(lines, NotBlankF());
    forall x
      ensures (exists l :: l in NonBlank(lines) && parse(l) == Ok(x)) <==>
        exists l :: l in lines && !Blank(l) && ParseLineWithFormat(p, l, DetectedFormat(lines, format)) == Ok(x)
    {
    }
  }

  lemma {:induction false} ParsedAppend(parse: string -> Result<LogEntry>, a: seq<string>, b: seq<string>)
    ensures ParsedAll(parse, a + b) == ParsedAll(parse, a) + ParsedAll(parse, b)
    decreases |b|
  {
    if b == [] {
      assert a + b == a;
    } else {
      var init := b[..|b| - 1];
      ParsedAppend(parse, a, init);
      assert (a + b)[..|a + b| - 1] == a + init;
      assert (a + b)[|a + b| - 1] == b[|b| - 1];
    }
  }

  /** Order is kept: with a fixed format, reading two runs of lines is
      reading each and concatenating. */
  lemma ReadAppend(p: Parsers, a: seq<string>, b: seq<string>, format: Format)
    requires format != Auto
    ensures ReadOf(p, a + b, format) == ReadOf(p, a, format) + ReadOf(p, b, format)
  {
    SelectAppend(a, b, NotBlankF());
    ParsedAppend(ParserFor(p, format), NonBlank(a), NonBlank(b));
  }

  /** In auto mode the first non-blank line fixes the format for every
      later line, rather than each line being detected on its own. */
  lemma ReadAutoFixed(p: Parsers, lines: seq<string>)
    requires NonBlank(lines) != []
    ensures ReadOf(p, lines, Auto) == ReadOf(p, lines, DetectFormat(NonBlank(lines)[0]))
    ensures DetectFormat(NonBlank(lines)[0]) != Auto
  {
  }
}
