/** `Array.prototype.filter` and the stable `Array.prototype.sort` used by the stream
    utilities, with the facts the stream lists rely on. */
module Seqs {

  /** `s.filter(p)`. */
  function Filter<T>(s: seq<T>, p: T -> bool): (r: seq<T>)
    ensures |r| <= |s|
    decreases |s|
  {
    if s == [] then [] else (if p(s[0]) then [s[0]] else []) + Filter(s[1..], p)
  }

  /** Exactly the elements of `s` that satisfy `p` survive. */
  lemma {:induction false} FilterMembers<T>(s: seq<T>, p: T -> bool, x: T)
    ensures x in Filter(s, p) <==> x in s && p(x)
    decreases |s|
  {
    if s != [] {
      FilterMembers(s[1..], p, x);
      assert x in s <==> x == s[0] || x in s[1..];
    }
  }

  /** Filtering keeps every kept element as often as it occurs and drops the rest. */
  lemma {:induction false} FilterCount<T>(s: seq<T>, p: T -> bool, x: T)
    ensures multiset(Filter(s, p))[x] == if p(x) then multiset(s)[x] else 0
    decreases |s|
  {
    if s != [] {
      FilterCount(s[1..], p, x);
      assert s == [s[0]] + s[1..];
    }
  }

  /** Filtering distributes over concatenation, so it keeps relative order. */
  lemma {:induction false} FilterConcat<T>(a: seq<T>, b: seq<T>, p: T -> bool)
    ensures Filter(a + b, p) == Filter(a, p) + Filter(b, p)
    decreases |a|
  {
    if a != [] {
      FilterConcat(a[1..], b, p);
      var head := if p(a[0]) then [a[0]] else [];
      assert (a + b)[0] == a[0];
      assert (a + b)[1..] == a[1..] + b;
      assert Filter(a + b, p) == head + Filter(a[1..] + b, p);
      assert Filter(a, p) == head + Filter(a[1..], p);
    } else {
      assert a + b == b;
    }
  }

  /** Keys never decrease along `s`. */
  predicate SortedBy<T>(s: seq<T>, key: T -> int) {
    forall i, j :: 0 <= i < j < |s| ==> key(s[i]) <= key(s[j])
  }

  /** Places `x` in front of the first element whose key is not smaller. */
  function Insert<T>(x: T, s: seq<T>, key: T -> int): (r: seq<T>)
    ensures |r| == |s| + 1
    decreases |s|
  {
    if s == [] || key(x) <= key(s[0]) then [x] + s
    else [s[0]] + Insert(x, s[1..], key)
  }

  /** Inserting adds exactly `x`. */
  lemma {:induction false} InsertPerm<T>(x: T, s: seq<T>, key: T -> int)
    ensures multiset(Insert(x, s, key)) == multiset(s) + multiset{x}
    decreases |s|
  {
    if s != [] && key(x) > key(s[0]) {
      InsertPerm(x, s[1..], key);
      assert s == [s[0]] + s[1..];
    }
  }

  /** Filtering a list with a head keeps the head exactly when it passes. */
  lemma FilterCons<T>(h: T, t: seq<T>, p: T -> bool)
    ensures Filter([h] + t, p) == (if p(h) then [h] else []) + Filter(t, p)
  {
    assert ([h] + t)[1..] == t;
  }

  /** A key above the head's inserts past the head. */
  lemma InsertCons<T>(x: T, h: T, t: seq<T>, key: T -> int)
    requires key(x) > key(h)
    ensures Insert(x, [h] + t, key) == [h] + Insert(x, t, key)
  {
    assert ([h] + t)[1..] == t;
  }

  /** Inserting into a sorted list keeps it sorted. */
  lemma {:induction false} InsertSorted<T>(x: T, s: seq<T>, key: T -> int)
    requires SortedBy(s, key)
    ensures SortedBy(Insert(x, s, key), key)
    decreases |s|
  {
    if s == [] || key(x) <= key(s[0]) {
      SortedCons(x, s, key);
    } else {
      var h := s[0];
      var tail := s[1..];
      assert s == [h] + tail;
      assert forall i :: 0 <= i < |tail| ==> tail[i] == s[i + 1];
      InsertSorted(x, tail, key);
      InsertPerm(x, tail, key);
      InsertCons(x, h, tail, key);
      var rest := Insert(x, tail, key);
      forall j | 0 <= j < |rest|
        ensures key(h) <= key(rest[j])
      {
        assert rest[j] in multiset(rest);
        if rest[j] != x {
          assert rest[j] in multiset(tail);
          var k :| 0 <= k < |tail| && tail[k] == rest[j];
        }
      }
      SortedCons(h, rest, key);
    }
  }

  /** A sorted list stays sorted behind an element whose key is not larger. */
  lemma SortedCons<T>(h: T, t: seq<T>, key: T -> int)
    requires SortedBy(t, key) && forall j :: 0 <= j < |t| ==> key(h) <= key(t[j])
    ensures SortedBy([h] + t, key)
  {
    var r := [h] + t;
    assert forall j :: 1 <= j < |r| ==> r[j] == t[j - 1];
  }

  /** `[...s].sort((a, b) => key(a) - key(b))`: the stable sort by `key`. */
  function SortBy<T>(s: seq<T>, key: T -> int): (r: seq<T>)
    ensures |r| == |s|
    ensures SortedBy(r, key)
    ensures multiset(r) == multiset(s)
    decreases |s|
  {
    if s == [] then []
    else
      InsertSorted(s[0], SortBy(s[1..], key), key);
      InsertPerm(s[0], SortBy(s[1..], key), key);
      assert s == [s[0]] + s[1..];
      Insert(s[0], SortBy(s[1..], key), key)
  }

  /** Two keys that agree on every element of `s`. */
  ghost predicate SameKeysOn<T>(s: seq<T>, k1: T -> int, k2: T -> int) {
    forall y :: y in multiset(s) ==> k1(y) == k2(y)
  }

  lemma {:induction false} InsertCongruent<T>(x: T, s: seq<T>, k1: T -> int, k2: T -> int)
    requires k1(x) == k2(x) && SameKeysOn(s, k1, k2)
    ensures Insert(x, s, k1) == Insert(x, s, k2)
    decreases |s|
  {
    if s != [] {
      assert s == [s[0]] + s[1..];
      assert multiset(s) == multiset{s[0]} + multiset(s[1..]);
      InsertCongruent(x, s[1..], k1, k2);
    }
  }

  /** The sort depends only on the keys of the elements sorted: two keys that agree
      on every element give the same order. */
  lemma {:induction false} SortCongruent<T>(s: seq<T>, k1: T -> int, k2: T -> int)
    requires SameKeysOn(s, k1, k2)
    ensures SortBy(s, k1) == SortBy(s, k2)
    decreases |s|
  {
    if s != [] {
      assert s == [s[0]] + s[1..];
      assert multiset(s) == multiset{s[0]} + multiset(s[1..]);
      SortCongruent(s[1..], k1, k2);
      InsertCongruent(s[0], SortBy(s[1..], k1), k1, k2);
    }
  }

  /** The elements of `s` whose key is `k`, in order. */
  function WithKey<T>(s: seq<T>, key: T -> int, k: int): (r: seq<T>)
    decreases |s|
  {
    if s == [] then [] else (if key(s[0]) == k then [s[0]] else []) + WithKey(s[1..], key, k)
  }

  lemma {:induction false} InsertWithKey<T>(x: T, s: seq<T>, key: T -> int, k: int)
    ensures WithKey(Insert(x, s, key), key, k) == (if key(x) == k then [x] else []) + WithKey(s, key, k)
    decreases |s|
  {
    if s == [] || key(x) <= key(s[0]) {
      WithKeyCons(x, s, key, k);
    } else {
      var h := s[0];
      var tail := s[1..];
      assert s == [h] + tail;
      InsertWithKey(x, tail, key, k);
      InsertCons(x, h, tail, key);
      WithKeyCons(h, Insert(x, tail, key), key, k);
      WithKeyCons(h, tail, key, k);
    }
  }

  lemma WithKeyCons<T>(h: T, t: seq<T>, key: T -> int, k: int)
    ensures WithKey([h] + t, key, k) == (if key(h) == k then [h] else []) + WithKey(t, key, k)
  {
    assert ([h] + t)[1..] == t;
  }

  /** Stability: the elements sharing a key keep their input order. */
  lemma {:induction false} SortStable<T>(s: seq<T>, key: T -> int, k: int)
    ensures WithKey(SortBy(s, key), key, k) == WithKey(s, key, k)
    decreases |s|
  {
    if s != [] {
      SortStable(s[1..], key, k);
      InsertWithKey(s[0], SortBy(s[1..], key), key, k);
    }
  }

  lemma {:induction false} InsertFilter<T>(x: T, s: seq<T>, key: T -> int, p: T -> bool)
    requires SortedBy(s, key)
    ensures Filter(Insert(x, s, key), p) == if p(x) then Insert(x, Filter(s, p), key) else Filter(s, p)
    decreases |s|
  {
    if s == [] || key(x) <= key(s[0]) {
      var f := Filter(s, p);
      FilterCons(x, s, p);
      if f != [] {
        FilterMembers(s, p, f[0]);
        var k :| 0 <= k < |s| && s[k] == f[0];
        assert key(s[0]) <= key(s[k]);
      }
    } else {
      var h := s[0];
      var tail := s[1..];
      assert s == [h] + tail;
      assert SortedBy(tail, key) by {
        assert forall i :: 0 <= i < |tail| ==> tail[i] == s[i + 1];
      }
      InsertFilter(x, tail, key, p);
      var ins := Insert(x, tail, key);
      var ft := Filter(tail, p);
      InsertCons(x, h, tail, key);
      assert Insert(x, s, key) == [h] + ins;
      FilterCons(h, ins, p);
      FilterCons(h, tail, p);
      assert Filter(s, p) == (if p(h) then [h] else []) + ft;
      if p(h) && p(x) {
        InsertCons(x, h, ft, key);
      } else if !p(h) {
        assert Filter(s, p) == ft;
        assert Filter(Insert(x, s, key), p) == Filter(ins, p);
      }
    }
  }

  /** Filtering a sorted list gives the sorted filtered list. */
  lemma {:induction false} FilterSortCommute<T>(s: seq<T>, key: T -> int, p: T -> bool)
    ensures Filter(SortBy(s, key), p) == SortBy(Filter(s, p), key)
    decreases |s|
  {
    if s != [] {
      var tail := s[1..];
      var sortedTail := SortBy(tail, key);
      FilterSortCommute(tail, key, p);
      InsertFilter(s[0], sortedTail, key, p);
      assert SortBy(s, key) == Insert(s[0], sortedTail, key);
      var ft := Filter(tail, p);
      if p(s[0]) {
        assert Filter(s, p) == [s[0]] + ft;
        assert ([s[0]] + ft)[0] == s[0];
        assert ([s[0]] + ft)[1..] == ft;
        assert SortBy([s[0]] + ft, key) == Insert(s[0], SortBy(ft, key), key);
      } else {
        assert Filter(s, p) == ft;
      }
    }
  }

  /** The position of the first element of `s` with the smallest key. */
  function BestIndex<T>(s: seq<T>, key: T -> int): (i: nat)
    requires s != []
    ensures i < |s|
    ensures forall j :: 0 <= j < |s| ==> key(s[i]) <= key(s[j])
    ensures forall j :: 0 <= j < i ==> key(s[j]) > key(s[i])
    decreases |s|
  {
    if |s| == 1 then 0
    else
      var b := BestIndex(s[1..], key);
      if key(s[0]) <= key(s[1..][b]) then 0 else b + 1
  }

  /** The head of the sorted list is the first element with the smallest key. */
  lemma {:induction false} SortHead<T>(s: seq<T>, key: T -> int)
    requires s != []
    ensures SortBy(s, key)[0] == s[BestIndex(s, key)]
    decreases |s|
  {
    if |s| > 1 {
      SortHead(s[1..], key);
    }
  }

  /** `s.map(f)`. */
  function Map<A, B>(s: seq<A>, f: A -> B): (r: seq<B>)
    ensures |r| == |s| && forall i :: 0 <= i < |s| ==> r[i] == f(s[i])
  {
    seq(|s|, i requires 0 <= i < |s| => f(s[i]))
  }

  lemma MapConcat<A, B>(a: seq<A>, b: seq<A>, f: A -> B)
    ensures Map(a + b, f) == Map(a, f) + Map(b, f)
  {
  }

  /** Filtering and mapping a sequence grown by one element. */
  lemma MapFilterSnoc<A, B>(s: seq<A>, x: A, p: A -> bool, f: A -> B)
    ensures Map(Filter(s + [x], p), f) == Map(Filter(s, p), f) + (if p(x) then [f(x)] else [])
  {
    FilterConcat(s, [x], p);
    assert Filter([x], p) == if p(x) then [x] else [];
    MapConcat(Filter(s, p), Filter([x], p), f);
  }

  /** The loop `for (const x of s) if (p(x)) out.push(f(x))`. */
  method FilterMapLoop<A, B>(s: seq<A>, p: A -> bool, f: A -> B) returns (out: seq<B>)
    ensures out == Map(Filter(s, p), f)
  {
    out := [];
    var i := 0;
    while i < |s|
      invariant 0 <= i <= |s|
      invariant out == Map(Filter(s[..i], p), f)
    {
      if p(s[i]) {
        out := out + [f(s[i])];
      }
      assert s[..i + 1] == s[..i] + [s[i]];
      MapFilterSnoc(s[..i], s[i], p, f);
      i := i + 1;
    }
    assert s[..i] == s;
  }

  /** Inserting and then mapping is mapping and then inserting, when the key is read
      through the map. */
  lemma {:induction false} InsertMap<A, B>(x: A, s: seq<A>, f: A -> B, ka: A -> int, kb: B -> int)
    requires forall a :: ka(a) == kb(f(a))
    ensures Map(Insert(x, s, ka), f) == Insert(f(x), Map(s, f), kb)
    decreases |s|
  {
    var m := Map(s, f);
    if s == [] || ka(x) <= ka(s[0]) {
      MapConcat([x], s, f);
      assert s != [] ==> kb(f(x)) <= kb(m[0]);
      assert Insert(f(x), m, kb) == [f(x)] + m;
    } else {
      InsertMap(x, s[1..], f, ka, kb);
      MapConcat([s[0]], Insert(x, s[1..], ka), f);
      assert m[1..] == Map(s[1..], f);
      assert kb(f(x)) > kb(m[0]);
      assert Insert(f(x), m, kb) == [m[0]] + Insert(f(x), m[1..], kb);
    }
  }

  /** Sorting commutes with a map that the key reads through. */
  lemma {:induction false} SortMap<A, B>(s: seq<A>, f: A -> B, ka: A -> int, kb: B -> int)
    requires forall a :: ka(a) == kb(f(a))
    ensures Map(SortBy(s, ka), f) == SortBy(Map(s, f), kb)
    decreases |s|
  {
    if s != [] {
      SortMap(s[1..], f, ka, kb);
      InsertMap(s[0], SortBy(s[1..], ka), f, ka, kb);
      assert Map(s, f)[1..] == Map(s[1..], f);
    }
  }

  /** Filtering commutes with a map that the predicate reads through. */
  lemma {:induction false} FilterMap<A, B>(s: seq<A>, f: A -> B, pa: A -> bool, pb: B -> bool)
    requires forall a :: pa(a) == pb(f(a))
    ensures Map(Filter(s, pa), f) == Filter(Map(s, f), pb)
    decreases |s|
  {
    if s != [] {
      FilterMap(s[1..], f, pa, pb);
      MapConcat(if pa(s[0]) then [s[0]] else [], Filter(s[1..], pa), f);
      assert Map(s, f)[1..] == Map(s[1..], f);
    }
  }

  /** No element occurs twice. */
  ghost predicate Distinct<T>(s: seq<T>) {
    forall i, j :: 0 <= i < j < |s| ==> s[i] != s[j]
  }

  /** In a list without repeats every element occurs at most once. */
  lemma {:induction false} DistinctCount<T>(s: seq<T>, x: T)
    requires Distinct(s)
    ensures multiset(s)[x] <= 1
    decreases |s|
  {
    if s != [] {
      assert s == [s[0]] + s[1..];
      assert Distinct(s[1..]) by {
        forall i, j | 0 <= i < j < |s[1..]| ensures s[1..][i] != s[1..][j] {
          assert s[1..][i] == s[i + 1] && s[1..][j] == s[j + 1];
        }
      }
      DistinctCount(s[1..], x);
      if x == s[0] {
        forall k | 0 <= k < |s[1..]| ensures s[1..][k] != x {
          assert s[1..][k] == s[k + 1];
        }
        assert x !in s[1..];
      }
    }
  }

  /** An element found at two positions occurs at least twice. */
  lemma RepeatCount<T>(s: seq<T>, i: nat, j: nat)
    requires i < j < |s| && s[i] == s[j]
    ensures multiset(s)[s[i]] >= 2
  {
    var x := s[i];
    assert s == s[..j] + [s[j]] + s[j + 1..];
    assert s[..j][i] == x;
    assert x in multiset(s[..j]);
  }

  /** A permutation of a list without repeats has none. */
  lemma PermutationDistinct<T>(a: seq<T>, b: seq<T>)
    requires multiset(a) == multiset(b) && Distinct(a)
    ensures Distinct(b)
  {
    forall i, j | 0 <= i < j < |b| ensures b[i] != b[j] {
      DistinctCount(a, b[i]);
      if b[i] == b[j] {
        RepeatCount(b, i, j);
        assert false;
      }
    }
  }

  /** Filtering a list without repeats leaves none. */
  lemma FilterDistinct<T>(s: seq<T>, p: T -> bool)
    requires Distinct(s)
    ensures Distinct(Filter(s, p))
  {
    var r := Filter(s, p);
    forall i, j | 0 <= i < j < |r| ensures r[i] != r[j] {
      DistinctCount(s, r[i]);
      FilterCount(s, p, r[i]);
      if r[i] == r[j] {
        RepeatCount(r, i, j);
        assert false;
      }
    }
  }
}
