/** Sequence operations shared by the model: JavaScript's Array.prototype
    filter, a stable sort by an integer key (Array.prototype.sort with a
    numeric comparator is stable, and so is SQL's ORDER BY over a unique
    key), and slice(0, end). */
module Seqs {
  import opened JsValues

  /** `s.filter(p)`: the elements of `s` that satisfy `p`, in order. */
  function Filter<T>(s: seq<T>, p: T -> bool): (r: seq<T>)
    ensures |r| <= |s|
    ensures forall i :: 0 <= i < |r| ==> r[i] in s && p(r[i])
    ensures multiset(r) <= multiset(s)
  {
    if |s| == 0 then []
    else
      assert s == [s[0]] + s[1..];
      if p(s[0]) then [s[0]] + Filter(s[1..], p)
      else Filter(s[1..], p)
  }

  /** Every element of `s` that satisfies `p` is kept. */
  lemma {:induction false} FilterKeeps<T>(s: seq<T>, p: T -> bool, i: nat)
    requires i < |s| && p(s[i])
    ensures s[i] in Filter(s, p)
  {
    if i > 0 {
      FilterKeeps(s[1..], p, i - 1);
      assert s[1..][i - 1] == s[i];
    }
  }

  lemma HeadTail<T>(s: seq<T>)
    requires |s| > 0
    ensures s == [s[0]] + s[1..]
  {
  }

  /** Filtering a sequence given by its first element and the rest. */
  lemma FilterCons<T>(h: T, t: seq<T>, p: T -> bool)
    ensures Filter([h] + t, p) == if p(h) then [h] + Filter(t, p) else Filter(t, p)
  {
    assert ([h] + t)[0] == h && ([h] + t)[1..] == t;
  }

  lemma FilterKeepsAll<T>(s: seq<T>, p: T -> bool)
    ensures forall i :: 0 <= i < |s| && p(s[i]) ==> s[i] in Filter(s, p)
  {
    forall i | 0 <= i < |s| && p(s[i])
      ensures s[i] in Filter(s, p)
    {
      FilterKeeps(s, p, i);
    }
  }

  /** Filtering twice with the same predicate keeps what filtering once kept. */
  lemma {:induction false} FilterIdempotent<T>(s: seq<T>, p: T -> bool)
    ensures Filter(Filter(s, p), p) == Filter(s, p)
  {
    if |s| > 0 {
      FilterIdempotent(s[1..], p);
      if p(s[0]) {
        assert ([s[0]] + Filter(s[1..], p))[1..] == Filter(s[1..], p);
      }
    }
  }

  /** Filtering distributes over concatenation. */
  lemma {:induction false} FilterAppend<T>(a: seq<T>, b: seq<T>, p: T -> bool)
    ensures Filter(a + b, p) == Filter(a, p) + Filter(b, p)
  {
    if |a| == 0 {
      assert a + b == b;
    } else {
      assert (a + b)[0] == a[0];
      assert (a + b)[1..] == a[1..] + b;
      FilterAppend(a[1..], b, p);
    }
  }

  /** Elements that every element of `s` satisfies are all kept. */
  lemma {:induction false} FilterAll<T>(s: seq<T>, p: T -> bool)
    requires forall i :: 0 <= i < |s| ==> p(s[i])
    ensures Filter(s, p) == s
  {
    if |s| > 0 {
      FilterAll(s[1..], p);
    }
  }

  /** Ascending order by `key`; equal keys may be adjacent. */
  predicate Ascending<T>(s: seq<T>, key: T -> int) {
    forall i, j :: 0 <= i < j < |s| ==> key(s[i]) <= key(s[j])
  }

  /** Putting in front a key no larger than any of `t`'s keeps the order. */
  lemma ConsAscending<T>(h: T, t: seq<T>, key: T -> int)
    requires Ascending(t, key)
    requires forall i :: 0 <= i < |t| ==> key(h) <= key(t[i])
    ensures Ascending([h] + t, key)
  {
    forall i, j | 0 <= i < j < |[h] + t|
      ensures key(([h] + t)[i]) <= key(([h] + t)[j])
    {
      assert ([h] + t)[j] == t[j - 1];
      if i > 0 {
        assert ([h] + t)[i] == t[i - 1];
      }
    }
  }

  lemma AscendingTail<T>(s: seq<T>, key: T -> int)
    requires |s| > 0 && Ascending(s, key)
    ensures Ascending(s[1..], key)
  {
    forall i, j | 0 <= i < j < |s| - 1
      ensures key(s[1..][i]) <= key(s[1..][j])
    {
      assert s[1..][i] == s[i + 1] && s[1..][j] == s[j + 1];
    }
  }

  /** Inserts `x` in front of the first element whose key is not smaller:
      an element placed this way precedes the equal keys that were already
      there. */
  function InsertByKey<T>(x: T, s: seq<T>, key: T -> int): (r: seq<T>)
    requires Ascending(s, key)
    ensures Ascending(r, key)
    ensures |r| == |s| + 1
    ensures multiset(r) == multiset(s) + multiset{x}
    ensures forall i :: 0 <= i < |r| ==> key(x) <= key(r[i]) || (|s| > 0 && key(s[0]) <= key(r[i]))
  {
    if |s| == 0 || key(x) <= key(s[0]) then
      ConsAscending(x, s, key);
      [x] + s
    else
      AscendingTail(s, key);
      var t := InsertByKey(x, s[1..], key);
      assert s == [s[0]] + s[1..];
      ConsAscending(s[0], t, key);
      [s[0]] + t
  }

  /** Every element of a sequence with `s`'s elements and `x` is `x` or an
      element of `s`. */
  lemma InsertedMembers<T>(x: T, s: seq<T>, r: seq<T>)
    requires multiset(r) == multiset(s) + multiset{x}
    ensures forall i :: 0 <= i < |r| ==> r[i] == x || r[i] in s
  {
    forall i | 0 <= i < |r|
      ensures r[i] == x || r[i] in s
    {
      assert r[i] in multiset(r);
    }
  }

  /** A stable sort by ascending key. */
  function SortByKey<T>(s: seq<T>, key: T -> int): (r: seq<T>)
    ensures Ascending(r, key)
    ensures |r| == |s|
    ensures multiset(r) == multiset(s)
    ensures forall i :: 0 <= i < |r| ==> r[i] in s
  {
    if |s| == 0 then []
    else
      assert s == [s[0]] + s[1..];
      var r := InsertByKey(s[0], SortByKey(s[1..], key), key);
      InsertedMembers(s[0], SortByKey(s[1..], key), r);
      r
  }

  /** The elements whose key is `k`. */
  function KeyIs<T>(key: T -> int, k: int): T -> bool {
    x => key(x) == k
  }

  lemma {:induction false} InsertStable<T>(x: T, s: seq<T>, key: T -> int, k: int)
    requires Ascending(s, key)
    ensures Filter(InsertByKey(x, s, key), KeyIs(key, k)) == Filter([x] + s, KeyIs(key, k))
  {
    var p := KeyIs(key, k);
    if |s| == 0 || key(x) <= key(s[0]) {
    } else {
      InsertStable(x, s[1..], key, k);
      var t := InsertByKey(x, s[1..], key);
      assert InsertByKey(x, s, key) == [s[0]] + t;
      assert ([s[0]] + t)[1..] == t;
      assert ([x] + s[1..])[1..] == s[1..];
      assert ([x] + s)[1..] == s;
      assert ([s[0]] + s[1..]) == s;
      assert key(x) != key(s[0]);
      if p(s[0]) {
        assert !p(x);
        assert Filter([x] + s, p) == Filter(s, p);
        assert Filter(s, p) == [s[0]] + Filter(s[1..], p);
        assert Filter([s[0]] + t, p) == [s[0]] + Filter(t, p);
      } else {
        assert Filter([s[0]] + t, p) == Filter(t, p);
        assert Filter(s, p) == Filter(s[1..], p);
      }
    }
  }

  /** Filtering commutes with putting an element in front, whatever was
      done to the tail in between. */
  lemma FilterFrontStep<T>(h: T, tail: seq<T>, rearranged: seq<T>, result: seq<T>, p: T -> bool)
    requires Filter(result, p) == Filter([h] + rearranged, p)
    requires Filter(rearranged, p) == Filter(tail, p)
    ensures Filter(result, p) == Filter([h] + tail, p)
  {
    FilterCons(h, rearranged, p);
    FilterCons(h, tail, p);
  }

  /** Stability: among the elements with any one key, the sort keeps their
      original order. */
  lemma {:induction false} SortStable<T>(s: seq<T>, key: T -> int, k: int)
    ensures Filter(SortByKey(s, key), KeyIs(key, k)) == Filter(s, KeyIs(key, k))
  {
    if |s| > 0 {
      var rest := SortByKey(s[1..], key);
      SortStable(s[1..], key, k);
      InsertStable(s[0], rest, key, k);
      HeadTail(s);
      FilterFrontStep(s[0], s[1..], rest, SortByKey(s, key), KeyIs(key, k));
    }
  }

  /** No two elements share a key (a primary key, for instance). */
  predicate DistinctKeys<T>(s: seq<T>, key: T -> int) {
    forall i, j :: 0 <= i < j < |s| ==> key(s[i]) != key(s[j])
  }

  lemma {:induction false} FilterDistinct<T>(s: seq<T>, p: T -> bool, key: T -> int)
    requires DistinctKeys(s, key)
    ensures DistinctKeys(Filter(s, p), key)
  {
    if |s| > 0 {
      FilterDistinct(s[1..], p, key);
      var rest := Filter(s[1..], p);
      if p(s[0]) {
        forall i | 0 <= i < |rest|
          ensures key(s[0]) != key(rest[i])
        {
          var j :| 0 <= j < |s[1..]| && s[1..][j] == rest[i];
          assert s[j + 1] == rest[i];
        }
      }
    }
  }

  lemma {:induction false} InsertDistinct<T>(x: T, s: seq<T>, key: T -> int)
    requires Ascending(s, key) && DistinctKeys(s, key)
    requires forall i :: 0 <= i < |s| ==> key(s[i]) != key(x)
    ensures DistinctKeys(InsertByKey(x, s, key), key)
  {
    if |s| > 0 && key(x) > key(s[0]) {
      InsertDistinct(x, s[1..], key);
      var t := InsertByKey(x, s[1..], key);
      InsertedMembers(x, s[1..], t);
      forall i | 0 <= i < |t|
        ensures key(s[0]) != key(t[i])
      {
        if t[i] != x {
          var j :| 0 <= j < |s[1..]| && s[1..][j] == t[i];
          assert s[j + 1] == t[i];
        }
      }
    }
  }

  lemma {:induction false} SortDistinct<T>(s: seq<T>, key: T -> int)
    requires DistinctKeys(s, key)
    ensures DistinctKeys(SortByKey(s, key), key)
  {
    if |s| > 0 {
      SortDistinct(s[1..], key);
      var rest := SortByKey(s[1..], key);
      forall i | 0 <= i < |rest|
        ensures key(rest[i]) != key(s[0])
      {
        var j :| 0 <= j < |s[1..]| && s[1..][j] == rest[i];
        assert s[j + 1] == rest[i];
      }
      InsertDistinct(s[0], rest, key);
    }
  }

  function Min(a: int, b: int): int { if a <= b then a else b }
  function Max(a: int, b: int): int { if a <= b then b else a }

  /** `s.slice(0, end)`: a negative `end` counts from the end of `s`. */
  function SliceTo<T>(s: seq<T>, end: int): (r: seq<T>)
    ensures |r| == (if end >= 0 then Min(end, |s|) else Max(|s| + end, 0))
    ensures end >= 0 ==> |r| <= end
    ensures |r| <= |s|
    ensures r == s[..|r|]
  {
    if end >= 0 then s[..Min(end, |s|)] else s[..Max(|s| + end, 0)]
  }

  /** `s.findIndex(p)`, as the index `s.find(p)` picks: the first element
      that satisfies `p`, or None. */
  function FindFirst<T>(s: seq<T>, p: T -> bool): (r: Option<nat>)
    ensures r.Some? ==> r.value < |s| && p(s[r.value]) && forall j :: 0 <= j < r.value ==> !p(s[j])
    ensures r.None? ==> forall j :: 0 <= j < |s| ==> !p(s[j])
  {
    if |s| == 0 then None
    else if p(s[0]) then Some(0)
    else
      var rest := FindFirst(s[1..], p);
      if rest.Some? then Some(rest.value + 1) else None
  }
  /** `r` is `s` with some elements left out, the rest in their order. */
  predicate Subsequence<T(==)>(r: seq<T>, s: seq<T>)
    decreases |s|
  {
    |r| == 0 ||
    (|s| > 0 && ((r[0] == s[0] && Subsequence(r[1..], s[1..])) || Subsequence(r, s[1..])))
  }

  /** Filtering keeps the order of what it keeps. */
  lemma {:induction false} FilterSubsequence<T>(s: seq<T>, p: T -> bool)
    ensures Subsequence(Filter(s, p), s)
  {
    if |s| > 0 {
      FilterSubsequence(s[1..], p);
      if p(s[0]) {
        assert Filter(s, p)[1..] == Filter(s[1..], p);
      }
    }
  }
  lemma FilterMember<T>(s: seq<T>, p: T -> bool, x: T)
    requires x in Filter(s, p)
    ensures x in s && p(x)
  {
    var k :| 0 <= k < |Filter(s, p)| && Filter(s, p)[k] == x;
  }

  lemma SortMember<T>(s: seq<T>, key: T -> int, x: T)
    requires x in SortByKey(s, key)
    ensures x in s
  {
    assert x in multiset(SortByKey(s, key));
  }

  /** Filter, sort and cut: what remains is elements of `s` that satisfy
      `p`, and no more of them than `s` has. */
  lemma FilterSortSliceMembers<T>(s: seq<T>, p: T -> bool, key: T -> int, end: int)
    ensures var r := SliceTo(SortByKey(Filter(s, p), key), end);
      (forall i :: 0 <= i < |r| ==> r[i] in s && p(r[i])) && |r| <= |s|
  {
    var m := Filter(s, p);
    var sorted := SortByKey(m, key);
    var r := SliceTo(sorted, end);
    forall i | 0 <= i < |r|
      ensures r[i] in s && p(r[i])
    {
      assert r[i] == sorted[i];
      SortMember(m, key, sorted[i]);
      FilterMember(s, p, sorted[i]);
    }
  }

  /** A cut keeps no more of any element than the whole has. */
  lemma SliceMultiset<T>(s: seq<T>, end: int)
    ensures multiset(SliceTo(s, end)) <= multiset(s)
  {
    var r := SliceTo(s, end);
    assert s == r + s[|r|..];
  }

  /** Filtering a prefix gives a prefix of the filtered whole. */
  lemma {:induction false} FilterPrefix<T>(s: seq<T>, p: T -> bool, n: nat)
    requires n <= |s|
    ensures Filter(s[..n], p) <= Filter(s, p)
  {
    if n == 0 {
      assert s[..0] == [];
    } else {
      FilterPrefix(s[1..], p, n - 1);
      HeadTail(s);
      assert s[..n] == [s[0]] + s[1..][..n - 1];
      FilterCons(s[0], s[1..][..n - 1], p);
      FilterCons(s[0], s[1..], p);
    }
  }

  /** Sorting stably and cutting: the elements with one key that remain are
      the first of those elements in their original order. */
  lemma SliceStable<T>(s: seq<T>, key: T -> int, end: int, k: int)
    ensures
      var f := Filter(SliceTo(SortByKey(s, key), end), KeyIs(key, k));
      var g := Filter(s, KeyIs(key, k));
      f <= g
  {
    var sorted := SortByKey(s, key);
    var r := SliceTo(sorted, end);
    SortStable(s, key, k);
    FilterPrefix(sorted, KeyIs(key, k), |r|);
  }

  /** A cut of an ascending sequence is ascending. */
  lemma SliceAscending<T>(s: seq<T>, key: T -> int, end: int)
    requires Ascending(s, key)
    ensures Ascending(SliceTo(s, end), key)
  {
    var r := SliceTo(s, end);
    forall i, j | 0 <= i < j < |r|
      ensures key(r[i]) <= key(r[j])
    {
      assert r[i] == s[i] && r[j] == s[j];
    }
  }

  /** Filter, sort and cut at `n`: an element that passes the filter but is
      left out means the cut is full of keys no larger than its own. */
  lemma FilterSortSliceSmallest<T>(s: seq<T>, p: T -> bool, key: T -> int, n: nat, j: nat)
    requires j < |s| && p(s[j])
    requires s[j] !in SliceTo(SortByKey(Filter(s, p), key), n)
    ensures |SliceTo(SortByKey(Filter(s, p), key), n)| == n
    ensures forall i :: 0 <= i < n ==> key(SliceTo(SortByKey(Filter(s, p), key), n)[i]) <= key(s[j])
  {
    FilterKeeps(s, p, j);
    SortedPrefixSmallest(Filter(s, p), key, n, s[j]);
  }

  /** Sorting and then cutting at `n` keeps the `n` smallest keys: an element
      left out means the cut is full of keys no larger than its own. */
  lemma SortedPrefixSmallest<T>(s: seq<T>, key: T -> int, n: nat, x: T)
    requires x in s && x !in SliceTo(SortByKey(s, key), n)
    ensures |SliceTo(SortByKey(s, key), n)| == n
    ensures forall i :: 0 <= i < n ==> key(SliceTo(SortByKey(s, key), n)[i]) <= key(x)
  {
    var sorted := SortByKey(s, key);
    assert x in multiset(sorted);
    var q :| 0 <= q < |sorted| && sorted[q] == x;
  }
}
