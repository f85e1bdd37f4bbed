/** The string helpers of Go's `strings` package that the core relies on:
    case mapping (`ToUpper`, `ToLower`, `EqualFold`, on ASCII letters only),
    `TrimSpace`, `HasPrefix`/`HasSuffix`, `Contains`/`Index`, `Split`,
    `Fields` and `Join`. Strings are sequences of Unicode code points.
    White space is Go's `unicode.IsSpace`, non-ASCII spaces included. Every
    separator the core searches for is ASCII, and no byte of a multi-byte
    UTF-8 sequence is ASCII, so scanning bytes and scanning code points
    reach the same decisions. */
module Text {
  import opened Types

  // ---------------------------------------------------------------------
  // ASCII case mapping

  function Upper(c: char): char {
    if 'a' <= c <= 'z' then (c as int - 32) as char else c
  }

  function Lower(c: char): char {
    if 'A' <= c <= 'Z' then (c as int + 32) as char else c
  }

  function ToUpper(s: string): (r: string)
    ensures |r| == |s|
    ensures forall i :: 0 <= i < |s| ==> r[i] == Upper(s[i])
  {
    seq(|s|, i requires 0 <= i < |s| => Upper(s[i]))
  }

  function ToLower(s: string): (r: string)
    ensures |r| == |s|
    ensures forall i :: 0 <= i < |s| ==> r[i] == Lower(s[i])
  {
    seq(|s|, i requires 0 <= i < |s| => Lower(s[i]))
  }

  /** `strings.EqualFold` on ASCII text: equal after upper-casing. */
  predicate EqualFold(a: string, b: string) {
    ToUpper(a) == ToUpper(b)
  }

  lemma ToUpperAppend(a: string, b: string)
    ensures ToUpper(a + b) == ToUpper(a) + ToUpper(b)
  {
  }

  lemma ToLowerAppend(a: string, b: string)
    ensures ToLower(a + b) == ToLower(a) + ToLower(b)
  {
  }

  // ---------------------------------------------------------------------
  // White space and trimming

  /** Go's `unicode.IsSpace`: tab, line feed, vertical tab, form feed,
      carriage return and space, then U+0085 and U+00A0, then the other
      code points with the Unicode White_Space property. */
  predicate IsSpace(c: char) {
    c == ' ' || '\t' <= c <= '\r' || c == '\U{0085}' || c == '\U{00A0}'
    || c == '\U{1680}' || '\U{2000}' <= c <= '\U{200A}' || c == '\U{2028}' || c == '\U{2029}'
    || c == '\U{202F}' || c == '\U{205F}' || c == '\U{3000}'
  }

  predicate NoSpace(s: string) {
    forall i :: 0 <= i < |s| ==> !IsSpace(s[i])
  }

  lemma NoSpaceAppend(a: string, b: string)
    requires NoSpace(a) && NoSpace(b)
    ensures NoSpace(a + b)
  {
    assert forall i :: |a| <= i < |a + b| ==> (a + b)[i] == b[i - |a|];
  }

  function TrimLeft(s: string): (r: string)
    ensures |r| <= |s| && r == s[|s| - |r|..]
    ensures r == [] || !IsSpace(r[0])
  {
    if s != [] && IsSpace(s[0]) then TrimLeft(s[1..]) else s
  }

  function TrimRight(s: string): (r: string)
    ensures |r| <= |s| && r == s[..|r|]
    ensures r == [] || !IsSpace(r[|r| - 1])
  {
    if s != [] && IsSpace(s[|s| - 1]) then TrimRight(s[..|s| - 1]) else s
  }

  /** `strings.TrimSpace`: drops leading and trailing white space. */
  function TrimSpace(s: string): (r: string)
    ensures r == [] || (!IsSpace(r[0]) && !IsSpace(r[|r| - 1]))
  {
    TrimRight(TrimLeft(s))
  }

  /** Text that neither starts nor ends with white space is already
      trimmed. */
  lemma TrimSpaceOfTrimmed(s: string)
    requires s == [] || (!IsSpace(s[0]) && !IsSpace(s[|s| - 1]))
    ensures TrimSpace(s) == s
  {
    assert TrimLeft(s) == s;
  }

  /** Lower-casing twice is lower-casing once, and lower-casing keeps
      white space where it was. */
  lemma ToLowerTwice(s: string)
    ensures ToLower(ToLower(s)) == ToLower(s)
    ensures forall i :: 0 <= i < |s| ==> (IsSpace(ToLower(s)[i]) <==> IsSpace(s[i]))
  {
    assert forall i :: 0 <= i < |s| ==> ToLower(ToLower(s))[i] == ToLower(s)[i];
  }

  predicate AllSpace(s: string) {
    forall i :: 0 <= i < |s| ==> IsSpace(s[i])
  }

  /** Trimming removes exactly the white space around trimmed text, however
      long the runs on either side are and whatever white space they use. */
  lemma TrimSpaceAround(pre: string, w: string, post: string)
    requires AllSpace(pre) && AllSpace(post)
    requires w == [] || (!IsSpace(w[0]) && !IsSpace(w[|w| - 1]))
    ensures TrimSpace(pre + w + post) == w
  {
    if w == [] {
      assert pre + w + post == (pre + post) + [];
      TrimLeftSpaces(pre + post, []);
    } else {
      assert pre + w + post == pre + (w + post);
      TrimLeftSpaces(pre, w + post);
      TrimRightSpaces(w, post);
    }
  }

  lemma {:induction false} TrimLeftSpaces(pre: string, s: string)
    requires AllSpace(pre)
    requires s == [] || !IsSpace(s[0])
    ensures TrimLeft(pre + s) == s
  {
    if pre == [] {
      assert pre + s == s;
    } else {
      assert (pre + s)[1..] == pre[1..] + s;
      TrimLeftSpaces(pre[1..], s);
    }
  }

  lemma {:induction false} TrimRightSpaces(s: string, post: string)
    requires AllSpace(post)
    requires s == [] || !IsSpace(s[|s| - 1])
    ensures TrimRight(s + post) == s
  {
    if post == [] {
      assert s + post == s;
    } else {
      var p := post[..|post| - 1];
      assert (s + post)[..|s + post| - 1] == s + p;
      TrimRightSpaces(s, p);
    }
  }

  lemma TrimSpaceNoSpace(s: string)
    requires NoSpace(s)
    ensures TrimSpace(s) == s
  {
  }

  /** Trimming keeps every non-space character: a character other than
      white space occurs in the trimmed text exactly when it occurs in the
      original. */
  lemma {:induction false} TrimSpaceKeeps(s: string, c: char)
    requires !IsSpace(c)
    ensures c in TrimSpace(s) <==> c in s
  {
    TrimLeftKeeps(s, c);
    TrimRightKeeps(TrimLeft(s), c);
  }

  lemma TrimLeftKeeps(s: string, c: char)
    requires !IsSpace(c)
    ensures c in TrimLeft(s) <==> c in s
  {
    var k := |s| - |TrimLeft(s)|;
    TrimLeftDropsSpaces(s);
    if c in s {
      var i :| 0 <= i < |s| && s[i] == c;
      assert s[k..][i - k] == c;
    }
  }

  /** What `TrimLeft` drops is white space. */
  lemma {:induction false} TrimLeftDropsSpaces(s: string)
    ensures forall i :: 0 <= i < |s| - |TrimLeft(s)| ==> IsSpace(s[i])
  {
    if s != [] && IsSpace(s[0]) {
      TrimLeftDropsSpaces(s[1..]);
      assert forall i :: 1 <= i < |s| - |TrimLeft(s)| ==> s[i] == s[1..][i - 1];
    }
  }

  lemma {:induction false} TrimRightKeeps(s: string, c: char)
    requires !IsSpace(c)
    ensures c in TrimRight(s) <==> c in s
  {
    if s != [] && IsSpace(s[|s| - 1]) {
      TrimRightKeeps(s[..|s| - 1], c);
      assert s == s[..|s| - 1] + [s[|s| - 1]];
    }
  }

  // ---------------------------------------------------------------------
  // Prefixes, suffixes, substrings

  predicate HasPrefix(s: string, p: string) {
    |p| <= |s| && s[..|p|] == p
  }

  predicate HasSuffix(s: string, p: string) {
    |p| <= |s| && s[|s| - |p|..] == p
  }

  predicate OccursAt(s: string, sub: string, i: int) {
    0 <= i && i + |sub| <= |s| && s[i..i + |sub|] == sub
  }

  lemma OccursAtHead(s: string, sub: string, i: int)
    ensures OccursAt(s, sub, i) && |sub| > 0 ==> s[i] == sub[0]
  {
    if OccursAt(s, sub, i) && |sub| > 0 {
      assert s[i..i + |sub|][0] == s[i];
    }
  }

  /** `strings.Contains`. */
  predicate Contains(s: string, sub: string) {
    exists i | 0 <= i <= |s| :: OccursAt(s, sub, i)
  }

  function IndexFrom(s: string, sub: string, i: nat): (r: Option<nat>)
    decreases |s| - i
    ensures r.Some? ==> i <= r.value && OccursAt(s, sub, r.value)
    ensures r.Some? ==> forall j :: i <= j < r.value ==> !OccursAt(s, sub, j)
    ensures r.None? ==> forall j :: i <= j ==> !OccursAt(s, sub, j)
  {
    if i + |sub| > |s| then None
    else if s[i..i + |sub|] == sub then Some(i)
    else IndexFrom(s, sub, i + 1)
  }

  /** `strings.Index`: the first position where `sub` occurs. */
  function IndexOf(s: string, sub: string): (r: Option<nat>)
    ensures r.Some? <==> Contains(s, sub)
    ensures r.Some? ==> OccursAt(s, sub, r.value)
    ensures r.Some? ==> forall j :: 0 <= j < r.value ==> !OccursAt(s, sub, j)
  {
    IndexFrom(s, sub, 0)
  }

  lemma OccursAtChar(s: string, c: char, i: int)
    ensures OccursAt(s, [c], i) <==> 0 <= i < |s| && s[i] == c
  {
    if 0 <= i < |s| && s[i] == c {
      assert s[i..i + 1] == [c];
    }
  }

  lemma ContainsChar(s: string, c: char)
    ensures Contains(s, [c]) <==> c in s
  {
    if c in s {
      var i :| 0 <= i < |s| && s[i] == c;
      OccursAtChar(s, c, i);
    }
    if Contains(s, [c]) {
      var i :| OccursAt(s, [c], i);
      OccursAtChar(s, c, i);
    }
  }

  /** The first occurrence of a single character `c` in `a + [c] + b` is
      right after `a` when `a` does not contain `c`. */
  lemma IndexOfCharAfter(a: string, c: char, b: string)
    requires c !in a
    ensures IndexOf(a + [c] + b, [c]) == Some(|a|)
  {
    var s := a + [c] + b;
    OccursAtChar(s, c, |a|);
    assert OccursAt(s, [c], |a|);
    var r := IndexOf(s, [c]);
    OccursAtChar(s, c, r.value);
  }

  // ---------------------------------------------------------------------
  // Split, Join, Fields

  /** `strings.Split(s, string(c))`: always at least one part; the empty
      string gives one empty part. */
  function Split(s: string, c: char): (r: seq<string>)
    ensures |r| >= 1
  {
    if s == [] then [""]
    else
      var rest := Split(s[1..], c);
      if s[0] == c then [""] + rest else [[s[0]] + rest[0]] + rest[1..]
  }

  /** `strings.Join`. */
  function Join(parts: seq<string>, sep: string): string {
    if |parts| == 0 then ""
    else if |parts| == 1 then parts[0]
    else parts[0] + sep + Join(parts[1..], sep)
  }

  lemma {:induction false} SplitPartsFree(s: string, c: char)
    ensures forall p :: p in Split(s, c) ==> c !in p
  {
    if s != [] {
      SplitPartsFree(s[1..], c);
    }
  }

  lemma {:induction false} SplitJoin(s: string, c: char)
    ensures Join(Split(s, c), [c]) == s
  {
    if s != [] {
      var rest := Split(s[1..], c);
      SplitJoin(s[1..], c);
      if s[0] == c {
        assert Join([""] + rest, [c]) == "" + [c] + Join(rest, [c]);
      } else if |rest| == 1 {
        assert Join(rest, [c]) == rest[0];
      } else {
        assert Join(rest, [c]) == rest[0] + [c] + Join(rest[1..], [c]);
        assert ([[s[0]] + rest[0]] + rest[1..])[1..] == rest[1..];
      }
    }
  }

  lemma {:induction false} SplitWhole(s: string, c: char)
    requires c !in s
    ensures Split(s, c) == [s]
  {
    if s != [] {
      SplitWhole(s[1..], c);
      assert [s[0]] + s[1..] == s;
    }
  }

  lemma {:induction false} SplitAfterSep(a: string, c: char, b: string)
    requires c !in a
    ensures Split(a + [c] + b, c) == [a] + Split(b, c)
  {
    if a == [] {
      assert a + [c] + b == [c] + b;
      assert ([c] + b)[1..] == b;
    } else {
      SplitAfterSep(a[1..], c, b);
      assert (a + [c] + b)[1..] == a[1..] + [c] + b;
      assert [a[0]] + a[1..] == a;
    }
  }

  /** A separator that occurs in neither prefix splits two equal texts at
      the same place. */
  lemma SplitAtSeparator(x: string, y: string, c: char, r1: string, r2: string)
    requires c !in x && c !in y
    requires x + [c] + r1 == y + [c] + r2
    ensures x == y && r1 == r2
  {
    var t := x + [c] + r1;
    IndexOfCharAfter(x, c, r1);
    IndexOfCharAfter(y, c, r2);
    assert x == t[..|x|] == y;
    assert r1 == t[|x| + 1..] == r2;
  }

  /** Split undoes Join when no part contains the separator. */
  lemma {:induction false} JoinSplit(parts: seq<string>, c: char)
    requires |parts| >= 1
    requires forall p :: p in parts ==> c !in p
    ensures Split(Join(parts, [c]), c) == parts
  {
    if |parts| == 1 {
      SplitWhole(parts[0], c);
    } else {
      JoinSplit(parts[1..], c);
      SplitAfterSep(parts[0], c, Join(parts[1..], [c]));
      assert [parts[0]] + parts[1..] == parts;
    }
  }

  /** The longest prefix of `s` without white space. */
  function Word(s: string): (w: string)
    ensures |w| <= |s| && w == s[..|w|]
    ensures NoSpace(w)
    ensures |w| < |s| ==> IsSpace(s[|w|])
  {
    if s == [] || IsSpace(s[0]) then [] else [s[0]] + Word(s[1..])
  }

  /** `strings.Fields`: the maximal runs of non-space characters. */
  function Fields(s: string): (r: seq<string>)
    decreases |s|
  {
    if s == [] then []
    else if IsSpace(s[0]) then Fields(s[1..])
    else
      var w := Word(s);
      assert |w| >= 1;
      [w] + Fields(s[|w|..])
  }

  lemma {:induction false} FieldsClean(s: string)
    ensures forall w :: w in Fields(s) ==> w != "" && NoSpace(w)
    decreases |s|
  {
    if s != [] {
      if IsSpace(s[0]) {
        FieldsClean(s[1..]);
      } else {
        FieldsClean(s[|Word(s)|..]);
      }
    }
  }

  lemma {:induction false} WordOf(w: string, rest: string)
    requires NoSpace(w)
    requires rest == [] || IsSpace(rest[0])
    ensures Word(w + rest) == w
  {
    if w != [] {
      assert (w + rest)[1..] == w[1..] + rest;
      WordOf(w[1..], rest);
    }
  }

  /** Fields undoes a single-space Join of clean words. */
  lemma {:induction false} FieldsJoin(ws: seq<string>)
    requires forall w :: w in ws ==> w != "" && NoSpace(w)
    ensures Fields(Join(ws, " ")) == ws
  {
    if |ws| == 1 {
      WordOf(ws[0], []);
      assert ws[0] + [] == ws[0];
      assert Fields(ws[0][|ws[0]|..]) == [];
    } else if |ws| > 1 {
      var rest := Join(ws[1..], " ");
      var s := ws[0] + " " + rest;
      WordOf(ws[0], " " + rest);
      assert ws[0] + (" " + rest) == s;
      assert s[|ws[0]|..] == " " + rest;
      assert (" " + rest)[1..] == rest;
      assert forall w :: w in ws[1..] ==> w in ws;
      FieldsJoin(ws[1..]);
      assert [ws[0]] + ws[1..] == ws;
    }
  }
}
