/** The array primitives the store relies on (findIndex, splice, filter),
    stated over immutable sequences. */
module Sequences {

  /** The index of the first occurrence of `id` in `ids`, or -1 when there is
      none (the convention of `Array.prototype.findIndex`). */
  function FirstIndex(ids: seq<string>, id: string): (r: int)
    ensures -1 <= r < |ids|
    ensures r == -1 <==> id !in ids
    ensures 0 <= r ==> ids[r] == id && id !in ids[..r]
  {
    if |ids| == 0 then -1
    else if ids[0] == id then 0
    else
      var k := FirstIndex(ids[1..], id);
      assert 0 <= k ==> ids[..k + 1] == [ids[0]] + ids[1..][..k];
      if k == -1 then -1 else k + 1
  }

  /** `s` with the element at `i` taken out (`splice(i, 1)`). */
  function SpliceOut<T>(s: seq<T>, i: nat): (r: seq<T>)
    requires i < |s|
    ensures |r| == |s| - 1
    ensures forall j :: 0 <= j < i ==> r[j] == s[j]
    ensures forall j :: i <= j < |r| ==> r[j] == s[j + 1]
  {
    s[..i] + s[i + 1..]
  }

  /** The elements of `s` that `keep` accepts, in their original order
      (`Array.prototype.filter`). */
  function Filter<T(!new)>(s: seq<T>, keep: T -> bool): (r: seq<T>)
    ensures |r| <= |s|
    ensures forall i :: 0 <= i < |r| ==> r[i] in s && keep(r[i])
    ensures forall i :: 0 <= i < |s| && keep(s[i]) ==> s[i] in r
  {
    if |s| == 0 then []
    else
      var rest := Filter(s[1..], keep);
      assert s == [s[0]] + s[1..];
      if keep(s[0]) then [s[0]] + rest else rest
  }

  /** Filtering keeps every copy of an element that passes the test and no
      copy of one that fails it. */
  lemma {:induction false} FilterMultiplicity<T(!new)>(s: seq<T>, keep: T -> bool)
    ensures forall x :: multiset(Filter(s, keep))[x] == if keep(x) then multiset(s)[x] else 0
    decreases |s|
  {
    if |s| > 0 {
      FilterMultiplicity(s[1..], keep);
      assert s == [s[0]] + s[1..];
      assert multiset(s) == multiset{s[0]} + multiset(s[1..]);
      if keep(s[0]) {
        assert multiset(Filter(s, keep)) == multiset{s[0]} + multiset(Filter(s[1..], keep));
      }
    }
  }

  /** `r` can be obtained from `s` by deleting elements, without reordering. */
  ghost predicate SubsequenceOf<T>(r: seq<T>, s: seq<T>)
    decreases |s|
  {
    if |r| == 0 then true
    else if |s| == 0 then false
    else (r[0] == s[0] && SubsequenceOf(r[1..], s[1..])) || SubsequenceOf(r, s[1..])
  }

  /** No identifier occurs twice. */
  ghost predicate UniqueIds(ids: seq<string>) {
    forall i, j :: 0 <= i < j < |ids| ==> ids[i] != ids[j]
  }

  /** Filtering keeps the relative order of the surviving elements. */
  lemma {:induction false} FilterIsSubsequence<T(!new)>(s: seq<T>, keep: T -> bool)
    ensures SubsequenceOf(Filter(s, keep), s)
    decreases |s|
  {
    if |s| > 0 {
      FilterIsSubsequence(s[1..], keep);
      var rest := Filter(s[1..], keep);
      if keep(s[0]) {
        assert Filter(s, keep) == [s[0]] + rest;
        assert ([s[0]] + rest)[1..] == rest;
      } else {
        assert Filter(s, keep) == rest;
        if |rest| > 0 {
          assert SubsequenceOf(rest, s[1..]);
        }
      }
    }
  }

  /** Filtering distributes over appending one element. */
  lemma {:induction false} FilterAppend<T(!new)>(s: seq<T>, x: T, keep: T -> bool)
    ensures Filter(s + [x], keep) == Filter(s, keep) + (if keep(x) then [x] else [])
    decreases |s|
  {
    if |s| > 0 {
      var t := s + [x];
      assert t[0] == s[0] && t[1..] == s[1..] + [x];
      FilterAppend(s[1..], x, keep);
      var tail := if keep(x) then [x] else [];
      if keep(s[0]) {
        assert Filter(t, keep) == [s[0]] + Filter(s[1..] + [x], keep);
        assert Filter(s, keep) == [s[0]] + Filter(s[1..], keep);
        assert [s[0]] + (Filter(s[1..], keep) + tail) == ([s[0]] + Filter(s[1..], keep)) + tail;
      } else {
        assert Filter(t, keep) == Filter(s[1..] + [x], keep);
        assert Filter(s, keep) == Filter(s[1..], keep);
      }
    } else {
      assert s + [x] == [x];
    }
  }

  /** The length of a filter result is the number of positions among the
      first `n` whose element passes the test. */
  lemma {:induction false} FilterPrefixCount<T(!new)>(s: seq<T>, keep: T -> bool, n: nat)
    requires n <= |s|
    ensures |Filter(s[..n], keep)| == |set i | 0 <= i < n && keep(s[i])|
    decreases n
  {
    if n > 0 {
      var m := n - 1;
      FilterPrefixCount(s, keep, m);
      assert s[..n] == s[..m] + [s[m]];
      FilterAppend(s[..m], s[m], keep);
      var before := set i | 0 <= i < m && keep(s[i]);
      var after := set i | 0 <= i < n && keep(s[i]);
      if keep(s[m]) {
        assert after == before + {m};
        assert m !in before;
      } else {
        assert after == before;
      }
    }
  }

  /** The length of a filter result is the number of positions whose element
      passes the test. */
  lemma {:induction false} FilterCount<T(!new)>(s: seq<T>, keep: T -> bool, positions: set<int>)
    requires forall i :: i in positions <==> 0 <= i < |s| && keep(s[i])
    ensures |Filter(s, keep)| == |positions|
  {
    FilterPrefixCount(s, keep, |s|);
    assert s[..|s|] == s;
    assert positions == set i | 0 <= i < |s| && keep(s[i]);
  }

  /** A filter that accepts every element returns its input unchanged. */
  lemma {:induction false} FilterKeepsAll<T(!new)>(s: seq<T>, keep: T -> bool)
    requires forall x :: keep(x)
    ensures Filter(s, keep) == s
    decreases |s|
  {
    if |s| > 0 {
      FilterKeepsAll(s[1..], keep);
      assert [s[0]] + s[1..] == s;
    }
  }

  /** Filters that agree on every element produce the same result. */
  lemma {:induction false} FilterCongruent<T(!new)>(s: seq<T>, p: T -> bool, q: T -> bool)
    requires forall x :: p(x) == q(x)
    ensures Filter(s, p) == Filter(s, q)
    decreases |s|
  {
    if |s| > 0 {
      FilterCongruent(s[1..], p, q);
    }
  }

  /** Three filters applied in turn select exactly what their conjunction
      selects, in the same order. */
  lemma {:induction false} FilterInStages<T(!new)>(s: seq<T>, p1: T -> bool, p2: T -> bool, p3: T -> bool, all: T -> bool)
    requires forall x :: all(x) == (p1(x) && p2(x) && p3(x))
    ensures Filter(Filter(Filter(s, p1), p2), p3) == Filter(s, all)
    decreases |s|
  {
    if |s| > 0 {
      FilterInStages(s[1..], p1, p2, p3, all);
      var a := Filter(s[1..], p1);
      if p1(s[0]) {
        assert Filter(s, p1) == [s[0]] + a;
        assert ([s[0]] + a)[1..] == a;
        var b := Filter(a, p2);
        if p2(s[0]) {
          assert Filter([s[0]] + a, p2) == [s[0]] + b;
          assert ([s[0]] + b)[1..] == b;
        } else {
          assert Filter([s[0]] + a, p2) == b;
        }
      }
    }
  }
}
