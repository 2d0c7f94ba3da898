/** Sequence operations the storage queries are built from: filter, reverse, take. */
module Seqs {
  import opened Wrappers

  function Min(a: int, b: int): int {
    if a <= b then a else b
  }

  /** `a` is obtained from `b` by deleting elements, keeping the order of the rest. */
  predicate IsSubsequence<T(==)>(a: seq<T>, b: seq<T>)
    decreases |b|
  {
    if a == [] then true
    else if b == [] then false
    else (a[0] == b[0] && IsSubsequence(a[1..], b[1..])) || IsSubsequence(a, b[1..])
  }

  /** A `where` clause: the elements satisfying `p`, in their original order. */
  function Filter<T(==,!new)>(s: seq<T>, p: T -> bool): (r: seq<T>)
    ensures forall x {:trigger multiset(r)[x]} :: multiset(r)[x] == if p(x) then multiset(s)[x] else 0
    ensures forall i :: 0 <= i < |r| ==> p(r[i])
    ensures IsSubsequence(r, s)
    ensures |r| <= |s|
  {
    if s == [] then []
    else
      var rest := Filter(s[1..], p);
      assert s == [s[0]] + s[1..];
      assert multiset(s) == multiset{s[0]} + multiset(s[1..]);
      if p(s[0]) then
        assert multiset([s[0]] + rest) == multiset{s[0]} + multiset(rest);
        assert ([s[0]] + rest)[1..] == rest;
        [s[0]] + rest
      else rest
  }

  /** When every element passes, the filter returns its input unchanged, repetitions included. */
  lemma {:induction false} FilterKeepsAll<T(!new)>(s: seq<T>, p: T -> bool)
    requires forall i :: 0 <= i < |s| ==> p(s[i])
    ensures Filter(s, p) == s
  {
    if s != [] {
      FilterKeepsAll(s[1..], p);
    }
  }

  /** Every element of `Filter(s, p)` is an element of `s`. */
  lemma FilterMember<T(!new)>(s: seq<T>, p: T -> bool, x: T)
    requires x in Filter(s, p)
    ensures x in s && p(x)
  {
    assert multiset(Filter(s, p))[x] > 0;
  }

  function Reverse<T>(s: seq<T>): (r: seq<T>)
    ensures |r| == |s|
    ensures forall i :: 0 <= i < |s| ==> r[i] == s[|s| - 1 - i]
  {
    if s == [] then [] else Reverse(s[1..]) + [s[0]]
  }

  /** A `take` clause: the first `n` elements, or all of them when there are fewer. */
  function Take<T>(s: seq<T>, n: nat): (r: seq<T>)
    ensures |r| == Min(n, |s|)
    ensures r == s[..|r|]
  {
    if n <= |s| then s[..n] else s
  }

  /** Reading in descending order, taking `n` and reversing back yields the last `n` elements in the original order. */
  lemma {:induction false} ReverseTakeReverse<T>(s: seq<T>, n: nat)
    ensures Reverse(Take(Reverse(s), n)) == s[|s| - Min(n, |s|)..]
  {
    var k := Min(n, |s|);
    var d := Reverse(s);
    var t := Take(d, n);
    var r := Reverse(t);
    assert |t| == k && |r| == k;
    forall i | 0 <= i < k
      ensures r[i] == s[|s| - k + i]
    {
      assert r[i] == t[k - 1 - i];
      assert t[k - 1 - i] == d[k - 1 - i];
    }
    SuffixByIndex(s, r, k);
  }

  /** A sequence agreeing index by index with the last `k` elements of `s` is that suffix. */
  lemma SuffixByIndex<T>(s: seq<T>, r: seq<T>, k: nat)
    requires k <= |s| && |r| == k
    requires forall i :: 0 <= i < k ==> r[i] == s[|s| - k + i]
    ensures r == s[|s| - k..]
  {
  }

  /** Ascending by `key`. */
  predicate SortedBy<T>(s: seq<T>, key: T -> int) {
    forall i, j :: 0 <= i < j < |s| ==> key(s[i]) <= key(s[j])
  }

  /** Filtering a sorted sequence keeps it sorted. */
  lemma {:induction false} FilterSorted<T(!new)>(s: seq<T>, p: T -> bool, key: T -> int)
    requires SortedBy(s, key)
    ensures SortedBy(Filter(s, p), key)
  {
    if s != [] {
      var rest := Filter(s[1..], p);
      assert SortedBy(s[1..], key) by {
        forall i, j | 0 <= i < j < |s[1..]|
          ensures key(s[1..][i]) <= key(s[1..][j])
        {
          assert s[1..][i] == s[i + 1] && s[1..][j] == s[j + 1];
        }
      }
      FilterSorted(s[1..], p, key);
      if p(s[0]) {
        var r := [s[0]] + rest;
        forall i, j | 0 <= i < j < |r|
          ensures key(r[i]) <= key(r[j])
        {
          if i == 0 {
            assert r[j] == rest[j - 1];
            FilterMember(s[1..], p, rest[j - 1]);
            var m :| 0 <= m < |s[1..]| && s[1..][m] == rest[j - 1];
            assert s[1..][m] == s[m + 1];
          } else {
            assert r[i] == rest[i - 1] && r[j] == rest[j - 1];
          }
        }
      }
    }
  }

  /** Maps each element through `f` and keeps the present results, in order. */
  function FilterMap<A, B>(s: seq<A>, f: A -> Option<B>): (r: seq<B>)
    ensures |r| <= |s|
  {
    if s == [] then []
    else (if f(s[0]).Some? then [f(s[0]).value] else []) + FilterMap(s[1..], f)
  }

  /** One element gives its present result or nothing. */
  lemma FilterMapOne<A, B>(x: A, f: A -> Option<B>)
    ensures FilterMap([x], f) == if f(x).Some? then [f(x).value] else []
  {
    assert [x][1..] == [];
  }

  /** Filter-mapping a concatenation filter-maps each part and concatenates the results, so the
      results keep the order of their inputs and each input contributes once. */
  lemma {:induction false} FilterMapAppend<A, B>(s: seq<A>, t: seq<A>, f: A -> Option<B>)
    ensures FilterMap(s + t, f) == FilterMap(s, f) + FilterMap(t, f)
    decreases |s|
  {
    if s != [] {
      assert (s + t)[0] == s[0] && (s + t)[1..] == s[1..] + t;
      FilterMapAppend(s[1..], t, f);
    } else {
      assert s + t == t;
    }
  }

  /** Every kept result comes from some element, and every present result is kept. */
  lemma {:induction false} FilterMapFaithful<A, B>(s: seq<A>, f: A -> Option<B>)
    ensures forall i :: 0 <= i < |FilterMap(s, f)| ==>
              exists j :: 0 <= j < |s| && f(s[j]) == Some(FilterMap(s, f)[i])
    ensures forall j :: 0 <= j < |s| && f(s[j]).Some? ==> f(s[j]).value in FilterMap(s, f)
  {
    if s != [] {
      var tail := s[1..];
      FilterMapFaithful(tail, f);
      var r := FilterMap(s, f);
      var rest := FilterMap(tail, f);
      var skip := if f(s[0]).Some? then 1 else 0;
      assert r == (if f(s[0]).Some? then [f(s[0]).value] else []) + rest;
      forall i | 0 <= i < |r|
        ensures exists j :: 0 <= j < |s| && f(s[j]) == Some(r[i])
      {
        if i < skip {
          assert f(s[0]) == Some(r[0]);
        } else {
          assert r[i] == rest[i - skip];
          var j :| 0 <= j < |tail| && f(tail[j]) == Some(rest[i - skip]);
          assert tail[j] == s[j + 1];
        }
      }
      forall j | 0 <= j < |s| && f(s[j]).Some?
        ensures f(s[j]).value in r
      {
        if j == 0 {
          assert r[0] == f(s[0]).value;
        } else {
          assert s[j] == tail[j - 1];
          var k :| 0 <= k < |rest| && rest[k] == f(tail[j - 1]).value;
          assert r[k + skip] == rest[k];
        }
      }
    } else {
      assert |FilterMap(s, f)| == 0;
    }
  }
}
