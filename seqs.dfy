/** Sequence vocabulary shared by the index, the engine and the shard code:
    order-preserving selection, first-occurrence de-duplication, grouping
    into buckets by a key (the shape of every `map[key][]entry` the Go code
    fills by appending in input order), the positions a bucket's elements
    occupy, and strictly sorted key lists. */
module Seqs {

  // ---------------------------------------------------------------------
  // Elements and duplicates

  function Elems<T>(s: seq<T>): set<T> {
    set x | x in s
  }

  predicate NoDups<T(==)>(s: seq<T>) {
    forall i, j :: 0 <= i < j < |s| ==> s[i] != s[j]
  }

  /** A non-empty sequence is its front followed by its last element. */
  lemma LastSplit<T>(s: seq<T>)
    requires |s| > 0
    ensures s[..|s| - 1] + [s[|s| - 1]] == s
  {
  }

  lemma NoDupsAppend<T>(s: seq<T>, x: T)
    requires NoDups(s) && x !in s
    ensures NoDups(s + [x])
  {
  }

  /** Concatenating two duplicate-free sequences with no element in common
      gives a duplicate-free sequence. */
  lemma NoDupsConcat<T>(a: seq<T>, b: seq<T>)
    requires NoDups(a) && NoDups(b)
    requires forall x :: x in a ==> x !in b
    ensures NoDups(a + b)
  {
    forall i, j | 0 <= i < j < |a + b|
      ensures (a + b)[i] != (a + b)[j]
    {
      if i < |a| && j >= |a| {
        assert (a + b)[i] in a && (a + b)[j] in b;
      }
    }
  }

  /** Two duplicate-free sequences with the same elements are permutations
      of each other. */
  lemma {:induction false} NoDupsSameElems<T>(a: seq<T>, b: seq<T>)
    requires NoDups(a) && NoDups(b)
    requires Elems(a) == Elems(b)
    ensures multiset(a) == multiset(b)
  {
    NoDupsCount(a);
    NoDupsCount(b);
    forall x ensures multiset(a)[x] == multiset(b)[x] {
      assert x in a <==> x in Elems(a);
      assert x in b <==> x in Elems(b);
    }
  }

  lemma {:induction false} NoDupsCount<T>(s: seq<T>)
    requires NoDups(s)
    ensures forall x :: multiset(s)[x] == if x in s then 1 else 0
  {
    if s != [] {
      var init := s[..|s| - 1];
      assert s == init + [s[|s| - 1]];
      NoDupsCount(init);
    }
  }

  /** A duplicate-free sequence drawn from `t` occurs within `t` as a
      multiset. */
  lemma NoDupsSubMultiset<T>(s: seq<T>, t: seq<T>)
    requires NoDups(s)
    requires forall x :: x in s ==> x in t
    ensures multiset(s) <= multiset(t)
  {
    NoDupsCount(s);
    forall x
      ensures multiset(s)[x] <= multiset(t)[x]
    {
      if x in s {
        assert x in multiset(t);
      }
    }
  }

  /** A sub-multiset is never longer. */
  lemma {:induction false} SubMultisetLength<T>(a: seq<T>, b: seq<T>)
    requires multiset(a) <= multiset(b)
    ensures |a| <= |b|
    decreases |a|
  {
    if a != [] {
      var x := a[|a| - 1];
      var init := a[..|a| - 1];
      assert a == init + [x];
      assert x in multiset(b);
      var j :| 0 <= j < |b| && b[j] == x;
      var rest := b[..j] + b[j + 1..];
      assert b == b[..j] + [x] + b[j + 1..];
      assert multiset(rest) == multiset(b) - multiset{x};
      assert multiset(init) == multiset(a) - multiset{x};
      SubMultisetLength(init, rest);
    }
  }

  // ---------------------------------------------------------------------
  // Selection

  /** The elements of `s` that satisfy `p`, in their original order. */
  function Select<T>(s: seq<T>, p: T -> bool): (r: seq<T>)
    ensures |r| <= |s|
  {
    if s == [] then []
    else Select(s[..|s| - 1], p) + (if p(s[|s| - 1]) then [s[|s| - 1]] else [])
  }

  lemma SelectPair<T>(a: T, b: T, p: T -> bool)
    ensures Select([a, b], p) == (if p(a) then [a] else []) + (if p(b) then [b] else [])
  {
    assert [a, b][..1] == [a];
    assert [a][..0] == [];
  }

  lemma {:induction false} SelectMembers<T>(s: seq<T>, p: T -> bool)
    ensures forall x :: x in Select(s, p) <==> x in s && p(x)
  {
    if s != [] {
      var init := s[..|s| - 1];
      assert s == init + [s[|s| - 1]];
      SelectMembers(init, p);
    }
  }

  lemma {:induction false} SelectAppend<T>(a: seq<T>, b: seq<T>, p: T -> bool)
    ensures Select(a + b, p) == Select(a, p) + Select(b, p)
  {
    if b != [] {
      var init := b[..|b| - 1];
      assert (a + b)[..|a + b| - 1] == a + init;
      SelectAppend(a, init, p);
    } else {
      assert a + b == a;
    }
  }

  lemma {:induction false} SelectCount<T>(s: seq<T>, p: T -> bool)
    ensures forall x :: multiset(Select(s, p))[x] == if p(x) then multiset(s)[x] else 0
  {
    if s != [] {
      var init := s[..|s| - 1];
      assert s == init + [s[|s| - 1]];
      SelectCount(init, p);
    }
  }

  lemma {:induction false} SelectNoDups<T>(s: seq<T>, p: T -> bool)
    requires NoDups(s)
    ensures NoDups(Select(s, p))
  {
    if s != [] {
      var init := s[..|s| - 1];
      assert s == init + [s[|s| - 1]];
      SelectNoDups(init, p);
      SelectMembers(init, p);
    }
  }

  /** Selection only looks at the elements present. */
  lemma {:induction false} SelectSame<T>(s: seq<T>, p: T -> bool, q: T -> bool)
    requires forall x :: x in s ==> (p(x) <==> q(x))
    ensures Select(s, p) == Select(s, q)
  {
    if s != [] {
      SelectSame(s[..|s| - 1], p, q);
    }
  }

  lemma {:induction false} SelectAll<T>(s: seq<T>, p: T -> bool)
    requires forall x :: x in s ==> p(x)
    ensures Select(s, p) == s
  {
    if s != [] {
      SelectAll(s[..|s| - 1], p);
      LastSplit(s);
    }
  }

  /** Selecting with a stronger predicate after a weaker one is the same as
      selecting with the stronger one alone. */
  lemma {:induction false} SelectNarrow<T>(s: seq<T>, p: T -> bool, q: T -> bool)
    requires forall x :: x in s && q(x) ==> p(x)
    ensures Select(Select(s, p), q) == Select(s, q)
  {
    if s != [] {
      var init := s[..|s| - 1];
      var x := s[|s| - 1];
      SelectNarrow(init, p, q);
      SelectAppend(Select(init, p), if p(x) then [x] else [], q);
    }
  }

  // ---------------------------------------------------------------------
  // De-duplication, keeping first occurrences

  function Dedup<T(==)>(s: seq<T>): seq<T> {
    if s == [] then []
    else if s[|s| - 1] in s[..|s| - 1] then Dedup(s[..|s| - 1])
    else Dedup(s[..|s| - 1]) + [s[|s| - 1]]
  }

  lemma DedupSnoc<T>(s: seq<T>, x: T)
    ensures Dedup(s + [x]) == if x in s then Dedup(s) else Dedup(s) + [x]
  {
    assert (s + [x])[..|s|] == s;
  }

  lemma {:induction false} DedupMembers<T>(s: seq<T>)
    ensures forall x :: x in Dedup(s) <==> x in s
  {
    if s != [] {
      var init := s[..|s| - 1];
      assert s == init + [s[|s| - 1]];
      DedupMembers(init);
    }
  }

  lemma {:induction false} DedupNoDups<T>(s: seq<T>)
    ensures NoDups(Dedup(s))
  {
    if s != [] {
      var init := s[..|s| - 1];
      DedupNoDups(init);
      DedupMembers(init);
    }
  }

  lemma {:induction false} DedupOfNoDups<T>(s: seq<T>)
    requires NoDups(s)
    ensures Dedup(s) == s
  {
    if s != [] {
      var init := s[..|s| - 1];
      assert s == init + [s[|s| - 1]];
      DedupOfNoDups(init);
    }
  }

  /** Some element of `s` has key `k`. */
  predicate KeySeen<T, K(==)>(s: seq<T>, key: T -> K, k: K) {
    exists i :: 0 <= i < |s| && key(s[i]) == k
  }

  /** De-duplication by a key: the first element with each key is kept. */
  function DedupBy<T, K(==)>(s: seq<T>, key: T -> K): seq<T> {
    if s == [] then []
    else if KeySeen(s[..|s| - 1], key, key(s[|s| - 1])) then DedupBy(s[..|s| - 1], key)
    else DedupBy(s[..|s| - 1], key) + [s[|s| - 1]]
  }

  /** Of two elements with one key, only the first is kept; two different
      elements are both kept by value. */
  lemma DedupPair<T, K>(a: T, b: T, key: T -> K)
    ensures key(a) == key(b) ==> DedupBy([a, b], key) == [a]
    ensures a != b ==> Dedup([a, b]) == [a, b]
  {
    assert [a, b][..1] == [a];
    assert [a][..0] == [];
    assert DedupBy([a], key) == [a] by {
      assert !KeySeen([a][..0], key, key(a));
    }
    assert Dedup([a]) == [a];
    assert KeySeen([a], key, key(b)) <==> key(a) == key(b) by {
      assert [a][0] == a;
    }
  }

  lemma FlattenPair<T>(x: seq<T>, y: seq<T>)
    ensures Flatten([x, y]) == x + y
  {
    assert [x, y][..1] == [x];
    assert [x][..0] == [];
    assert Flatten([x]) == x;
  }

  /** With a key that tells the elements of `s` apart, de-duplicating by
      key is de-duplicating by value. */
  lemma {:induction false} DedupByInjective<T, K>(s: seq<T>, key: T -> K)
    requires forall i, j :: 0 <= i < |s| && 0 <= j < |s| && key(s[i]) == key(s[j]) ==> s[i] == s[j]
    ensures DedupBy(s, key) == Dedup(s)
  {
    if s != [] {
      var init, last := s[..|s| - 1], s[|s| - 1];
      assert KeySeen(init, key, key(last)) <==> last in init by {
        if KeySeen(init, key, key(last)) {
          var i :| 0 <= i < |init| && key(init[i]) == key(last);
          assert s[i] == last;
        }
        if last in init {
          var i :| 0 <= i < |init| && init[i] == last;
          assert key(init[i]) == key(last);
        }
      }
      DedupByInjective(init, key);
    }
  }

  // ---------------------------------------------------------------------
  // Concatenation of a sequence of sequences

  function Flatten<T>(ss: seq<seq<T>>): seq<T> {
    if ss == [] then [] else Flatten(ss[..|ss| - 1]) + ss[|ss| - 1]
  }

  /** `x` occurs in one of the sequences of `ss`. */
  predicate InSome<T(==)>(ss: seq<seq<T>>, x: T) {
    exists i :: 0 <= i < |ss| && x in ss[i]
  }

  lemma {:induction false} FlattenMembers<T>(ss: seq<seq<T>>)
    ensures forall x :: x in Flatten(ss) <==> InSome(ss, x)
  {
    if ss != [] {
      var init := ss[..|ss| - 1];
      var last := ss[|ss| - 1];
      FlattenMembers(init);
      forall x
        ensures x in Flatten(ss) <==> InSome(ss, x)
      {
        InSomeSnoc(ss, x);
      }
    }
  }

  /** Occurring in one of a non-empty sequence of sequences: in one of the
      front ones, or in the last. */
  lemma InSomeSnoc<T>(ss: seq<seq<T>>, x: T)
    requires ss != []
    ensures InSome(ss, x) <==> InSome(ss[..|ss| - 1], x) || x in ss[|ss| - 1]
  {
    var init := ss[..|ss| - 1];
    if InSome(init, x) {
      var i :| 0 <= i < |init| && x in init[i];
      assert ss[i] == init[i];
    }
    if InSome(ss, x) {
      var i :| 0 <= i < |ss| && x in ss[i];
      if i < |init| {
        assert ss[i] == init[i];
      }
    }
  }

  // ---------------------------------------------------------------------
  // Buckets by key

  /** The elements of `s` whose key is `k`, in input order: what appending
      each element to `m[key(x)]` leaves in the bucket of `k`. */
  function Bucket<T, K(==)>(s: seq<T>, key: T -> K, k: K): seq<T> {
    if s == [] then []
    else Bucket(s[..|s| - 1], key, k) + (if key(s[|s| - 1]) == k then [s[|s| - 1]] else [])
  }

  function KeysOf<T(==), K>(s: seq<T>, key: T -> K): set<K> {
    set x | x in s :: key(x)
  }

  /** The map a loop builds by appending every element to the bucket of
      its key; a key is present exactly when some element has it. */
  function GroupBy<T(==), K(==)>(s: seq<T>, key: T -> K): map<K, seq<T>> {
    map k | k in KeysOf(s, key) :: Bucket(s, key, k)
  }

  function BucketOrEmpty<T, K>(m: map<K, seq<T>>, k: K): seq<T> {
    if k in m then m[k] else []
  }

  lemma {:induction false} BucketMembers<T, K>(s: seq<T>, key: T -> K, k: K)
    ensures forall x :: x in Bucket(s, key, k) <==> x in s && key(x) == k
  {
    if s != [] {
      var init := s[..|s| - 1];
      assert s == init + [s[|s| - 1]];
      BucketMembers(init, key, k);
    }
  }

  lemma BucketSnoc<T, K>(s: seq<T>, key: T -> K, k: K, x: T)
    ensures Bucket(s + [x], key, k) == Bucket(s, key, k) + (if key(x) == k then [x] else [])
  {
    assert (s + [x])[..|s|] == s;
  }

  lemma {:induction false} BucketCount<T, K>(s: seq<T>, key: T -> K, k: K)
    ensures forall x :: multiset(Bucket(s, key, k))[x] == if key(x) == k then multiset(s)[x] else 0
  {
    if s != [] {
      var init := s[..|s| - 1];
      assert s == init + [s[|s| - 1]];
      BucketCount(init, key, k);
    }
  }

  lemma {:induction false} BucketNoDups<T, K>(s: seq<T>, key: T -> K, k: K)
    requires NoDups(s)
    ensures NoDups(Bucket(s, key, k))
  {
    if s != [] {
      var init := s[..|s| - 1];
      assert s == init + [s[|s| - 1]];
      BucketNoDups(init, key, k);
      BucketMembers(init, key, k);
    }
  }

  /** Filtering a bucket with a predicate that implies the bucket's key is
      the same as filtering the whole input. */
  lemma {:induction false} BucketNarrow<T, K>(s: seq<T>, key: T -> K, k: K, p: T -> bool)
    requires forall x :: x in s && p(x) ==> key(x) == k
    ensures Select(Bucket(s, key, k), p) == Select(s, p)
  {
    if s != [] {
      var init := s[..|s| - 1];
      var x := s[|s| - 1];
      BucketNarrow(init, key, k, p);
      SelectAppend(Bucket(init, key, k), if key(x) == k then [x] else [], p);
    }
  }

  lemma KeyAbsentBucket<T, K>(s: seq<T>, key: T -> K, k: K)
    requires k !in KeysOf(s, key)
    ensures Bucket(s, key, k) == []
  {
    BucketMembers(s, key, k);
  }

  /** One step of the grouping loop: appending `x` adds it to the end of
      its key's bucket and changes nothing else. */
  lemma GroupBySnoc<T, K>(s: seq<T>, key: T -> K, x: T)
    ensures GroupBy(s + [x], key)
         == GroupBy(s, key)[key(x) := BucketOrEmpty(GroupBy(s, key), key(x)) + [x]]
  {
    var g := GroupBy(s, key);
    var g' := GroupBy(s + [x], key);
    var h := g[key(x) := BucketOrEmpty(g, key(x)) + [x]];
    assert KeysOf(s + [x], key) == KeysOf(s, key) + {key(x)};
    forall k | k in g'
      ensures k in h && g'[k] == h[k]
    {
      BucketSnoc(s, key, k, x);
      if k !in KeysOf(s, key) {
        KeyAbsentBucket(s, key, k);
      }
    }
    assert g'.Keys == h.Keys;
  }

  // ---------------------------------------------------------------------
  // Positions of a bucket and re-hydration from positions

  /** The indices `i` of `s` whose element has key `k`, increasing. */
  function Positions<T, K(==)>(s: seq<T>, key: T -> K, k: K): (r: seq<int>)
    ensures forall i :: 0 <= i < |r| ==> 0 <= r[i] < |s|
  {
    if s == [] then []
    else Positions(s[..|s| - 1], key, k) + (if key(s[|s| - 1]) == k then [|s| - 1] else [])
  }

  function PositionMap<T(==), K(==)>(s: seq<T>, key: T -> K): map<K, seq<int>> {
    map k | k in KeysOf(s, key) :: Positions(s, key, k)
  }

  function PositionsOrEmpty<K>(m: map<K, seq<int>>, k: K): seq<int> {
    if k in m then m[k] else []
  }

  /** The elements of `es` at the positions `ps`, skipping positions that
      are out of range. */
  function Rehydrate<T>(ps: seq<int>, es: seq<T>): seq<T> {
    if ps == [] then []
    else
      var p := ps[|ps| - 1];
      Rehydrate(ps[..|ps| - 1], es) + (if 0 <= p < |es| then [es[p]] else [])
  }

  lemma PositionsSnoc<T, K>(s: seq<T>, key: T -> K, k: K, x: T)
    ensures Positions(s + [x], key, k) == Positions(s, key, k) + (if key(x) == k then [|s|] else [])
  {
    assert (s + [x])[..|s|] == s;
  }

  lemma KeyAbsentPositions<T, K>(s: seq<T>, key: T -> K, k: K)
    requires k !in KeysOf(s, key)
    ensures Positions(s, key, k) == []
  {
    KeyAbsentBucket(s, key, k);
    PositionsBucketLength(s, key, k);
  }

  lemma {:induction false} PositionsBucketLength<T, K>(s: seq<T>, key: T -> K, k: K)
    ensures |Positions(s, key, k)| == |Bucket(s, key, k)|
  {
    if s != [] {
      PositionsBucketLength(s[..|s| - 1], key, k);
    }
  }

  lemma PositionMapSnoc<T, K>(s: seq<T>, key: T -> K, x: T)
    ensures PositionMap(s + [x], key)
         == PositionMap(s, key)[key(x) := PositionsOrEmpty(PositionMap(s, key), key(x)) + [|s|]]
  {
    var g := PositionMap(s, key);
    var g' := PositionMap(s + [x], key);
    var h := g[key(x) := PositionsOrEmpty(g, key(x)) + [|s|]];
    assert KeysOf(s + [x], key) == KeysOf(s, key) + {key(x)};
    forall k | k in g'
      ensures k in h && g'[k] == h[k]
    {
      PositionsSnoc(s, key, k, x);
      if k !in KeysOf(s, key) {
        KeyAbsentPositions(s, key, k);
      }
    }
    assert g'.Keys == h.Keys;
  }

  lemma RehydrateSnoc<T>(ps: seq<int>, p: int, es: seq<T>)
    ensures Rehydrate(ps + [p], es) == Rehydrate(ps, es) + (if 0 <= p < |es| then [es[p]] else [])
  {
    assert (ps + [p])[..|ps|] == ps;
  }

  /** Growing the element list does not change the re-hydration of positions
      that were already in range. */
  lemma {:induction false} RehydrateExtend<T>(ps: seq<int>, es: seq<T>, x: T)
    requires forall i :: 0 <= i < |ps| ==> 0 <= ps[i] < |es|
    ensures Rehydrate(ps, es + [x]) == Rehydrate(ps, es)
  {
    if ps != [] {
      RehydrateExtend(ps[..|ps| - 1], es, x);
    }
  }

  /** Re-hydrating the stored positions of a bucket gives the bucket back. */
  lemma {:induction false} RehydratePositions<T, K>(s: seq<T>, key: T -> K, k: K)
    ensures Rehydrate(Positions(s, key, k), s) == Bucket(s, key, k)
  {
    if s != [] {
      var init := s[..|s| - 1];
      var x := s[|s| - 1];
      assert s == init + [x];
      RehydratePositions(init, key, k);
      RehydrateExtend(Positions(init, key, k), init, x);
      PositionsSnoc(init, key, k, x);
      BucketSnoc(init, key, k, x);
      var ps := Positions(init, key, k);
      assert Rehydrate(ps, s) == Bucket(init, key, k);
      if key(x) == k {
        RehydrateSnoc(ps, |init|, s);
        assert Positions(s, key, k) == ps + [|init|];
      } else {
        assert Positions(s, key, k) == ps;
      }
    }
  }

  /** A position is listed for `k` exactly when it is in range and its
      element has key `k`. */
  lemma {:induction false} PositionsMembers<T, K>(s: seq<T>, key: T -> K, k: K)
    ensures forall i :: i in Positions(s, key, k) <==> 0 <= i < |s| && key(s[i]) == k
  {
    if s != [] {
      var init := s[..|s| - 1];
      PositionsMembers(init, key, k);
      assert forall i :: 0 <= i < |init| ==> init[i] == s[i];
    }
  }

  lemma {:induction false} PositionsSorted<T, K>(s: seq<T>, key: T -> K, k: K)
    ensures StrictlySorted(Positions(s, key, k))
  {
    if s != [] {
      var init := s[..|s| - 1];
      PositionsSorted(init, key, k);
    }
  }

  // ---------------------------------------------------------------------
  // Bucket sizes

  /** The total length of the buckets of `m` under the keys `ks`. */
  function SizeSum<K, T>(m: map<K, seq<T>>, ks: seq<K>): nat {
    if ks == [] then 0 else SizeSum(m, ks[..|ks| - 1]) + |BucketOrEmpty(m, ks[|ks| - 1])|
  }

  lemma {:induction false} SizeSumEmpty<K, T>(m: map<K, seq<T>>, ks: seq<K>)
    requires forall k :: k in ks ==> BucketOrEmpty(m, k) == []
    ensures SizeSum(m, ks) == 0
  {
    if ks != [] {
      SizeSumEmpty(m, ks[..|ks| - 1]);
    }
  }

  /** Replacing one bucket changes the sum by the change in its length, when
      its key is listed once. */
  lemma {:induction false} SizeSumUpdate<K, T>(m: map<K, seq<T>>, ks: seq<K>, k: K, v: seq<T>)
    requires NoDups(ks)
    ensures SizeSum(m[k := v], ks) + (if k in ks then |BucketOrEmpty(m, k)| else 0)
         == SizeSum(m, ks) + (if k in ks then |v| else 0)
  {
    if ks != [] {
      var init := ks[..|ks| - 1];
      var last := ks[|ks| - 1];
      assert NoDups(init);
      assert k in ks <==> k in init || k == last;
      assert last !in init;
      SizeSumUpdate(m, init, k, v);
    }
  }

  /** The buckets of a grouping, over any duplicate-free list of keys that
      covers them, hold every element exactly once between them. */
  lemma {:induction false} GroupBySizes<T, K>(s: seq<T>, key: T -> K, ks: seq<K>)
    requires NoDups(ks)
    requires forall x :: x in s ==> key(x) in ks
    ensures SizeSum(GroupBy(s, key), ks) == |s|
  {
    if s == [] {
      SizeSumEmpty(GroupBy(s, key), ks);
    } else {
      var init := s[..|s| - 1];
      var x := s[|s| - 1];
      assert s == init + [x];
      assert forall y :: y in init ==> y in s;
      GroupBySizes(init, key, ks);
      GroupBySnoc(init, key, x);
      var g := GroupBy(init, key);
      SizeSumUpdate(g, ks, key(x), BucketOrEmpty(g, key(x)) + [x]);
    }
  }

  // ---------------------------------------------------------------------
  // Strictly sorted key lists

  predicate StrictlySorted(s: seq<int>) {
    forall i, j :: 0 <= i < j < |s| ==> s[i] < s[j]
  }

  /** A finite set of integers has exactly one strictly increasing listing. */
  lemma {:induction false} SortedUnique(a: seq<int>, b: seq<int>)
    requires StrictlySorted(a) && StrictlySorted(b)
    requires Elems(a) == Elems(b)
    ensures a == b
    decreases |a|
  {
    assert a != [] ==> a[0] in Elems(a);
    assert b != [] ==> b[0] in Elems(b);
    if a != [] && b != [] {
      assert a[0] in Elems(b) && b[0] in Elems(a);
      assert a[0] == b[0];
      assert Elems(a[1..]) == Elems(a) - {a[0]};
      assert Elems(b[1..]) == Elems(b) - {b[0]};
      SortedUnique(a[1..], b[1..]);
      assert a == [a[0]] + a[1..];
      assert b == [b[0]] + b[1..];
    }
  }

  /** A set other than the empty set has an element. */
  lemma SetHasElement(s: set<int>)
    requires s != {}
    ensures exists x :: x in s
  {
    assert (forall x :: x !in s) ==> s == {};
  }

  ghost function MinOf(s: set<int>): (m: int)
    requires s != {}
    ensures m in s && forall y :: y in s ==> m <= y
    decreases |s|
  {
    SetHasElement(s);
    var x :| x in s;
    if s == {x} then x
    else
      var m := MinOf(s - {x});
      assert forall y :: y in s ==> y == x || y in s - {x};
      if x < m then x else m
  }

  /** The increasing listing of a finite set of integers. */
  ghost function SortedSeq(s: set<int>): (r: seq<int>)
    ensures StrictlySorted(r) && Elems(r) == s
    decreases |s|
  {
    if s == {} then []
    else
      var m := MinOf(s);
      var rest := SortedSeq(s - {m});
      ConsSorted(m, rest, s);
      [m] + rest
  }

  lemma ConsSorted(m: int, rest: seq<int>, s: set<int>)
    requires m in s && forall y :: y in s ==> m <= y
    requires StrictlySorted(rest) && Elems(rest) == s - {m}
    ensures StrictlySorted([m] + rest) && Elems([m] + rest) == s
  {
    assert forall i :: 0 <= i < |rest| ==> rest[i] in Elems(rest);
    assert forall x :: x in Elems([m] + rest) <==> x == m || x in Elems(rest);
  }

  /** Lists a finite set of integers in increasing order (the effect of
      collecting a map's keys and sorting them). */
  method SortedKeys(s: set<int>) returns (r: seq<int>)
    ensures r == SortedSeq(s)
  {
    r := [];
    var rest := s;
    while rest != {}
      invariant StrictlySorted(r)
      invariant forall x :: x in s <==> x in r || x in rest
      invariant forall i, y :: 0 <= i < |r| && y in rest ==> r[i] < y
      decreases |rest|
    {
      ghost var least := MinOf(rest);
      var m :| m in rest && forall y :: y in rest ==> m <= y;
      r := r + [m];
      rest := rest - {m};
    }
    assert forall x :: x in s <==> x in Elems(r);
    SortedUnique(r, SortedSeq(s));
  }
}
