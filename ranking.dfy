/**
  LINQ's OrderBy on a precomputed real-valued key: a stable ascending
  insertion sort. OrderByDescending is the same sort on the negated key.
 */
module Ranking {

  datatype Keyed<T> = Keyed(key: real, item: T)

  predicate Ascending<T>(s: seq<Keyed<T>>) {
    forall i, j :: 0 <= i < j < |s| ==> s[i].key <= s[j].key
  }

  /** Places `x` after every element whose key does not exceed its own. */
  function Insert<T(==)>(x: Keyed<T>, s: seq<Keyed<T>>): (r: seq<Keyed<T>>)
    requires Ascending(s)
    ensures Ascending(r)
    ensures |r| == |s| + 1
    ensures multiset(r) == multiset(s) + multiset{x}
  {
    if |s| == 0 then [x]
    else if x.key < s[0].key then [x] + s
    else
      var rest := Insert(x, s[1..]);
      assert s == [s[0]] + s[1..];
      BoundedBelow(s[0].key, s[1..], x, rest);
      [s[0]] + rest
  }

  /** A permutation of `s` plus `x` keeps a lower bound that `s` and `x` respect. */
  lemma BoundedBelow<T>(lo: real, s: seq<Keyed<T>>, x: Keyed<T>, r: seq<Keyed<T>>)
    requires forall i :: 0 <= i < |s| ==> lo <= s[i].key
    requires lo <= x.key
    requires multiset(r) == multiset(s) + multiset{x}
    ensures forall j :: 0 <= j < |r| ==> lo <= r[j].key
  {
    forall j | 0 <= j < |r|
      ensures lo <= r[j].key
    {
      assert r[j] in multiset(r);
      if r[j] != x {
        assert r[j] in multiset(s);
        var k :| 0 <= k < |s| && s[k] == r[j];
      }
    }
  }

  /** Sorts by key, ascending; a permutation of the input. */
  function Sort<T(==)>(s: seq<Keyed<T>>): (r: seq<Keyed<T>>)
    ensures Ascending(r)
    ensures multiset(r) == multiset(s)
    ensures |r| == |s|
  {
    if |s| == 0 then []
    else
      var init := s[..|s| - 1];
      var x := s[|s| - 1];
      assert s == init + [x];
      assert multiset(s) == multiset(init) + multiset{x};
      Insert(x, Sort(init))
  }

  /** The first `n` elements of a sorted list rank no later than any element left out. */
  lemma {:induction false} PrefixRanksFirst<T>(r: seq<Keyed<T>>, n: nat)
    requires Ascending(r) && n <= |r|
    ensures forall x, y :: x in r[..n] && y in r[n..] ==> x.key <= y.key
  {
    forall x, y | x in r[..n] && y in r[n..]
      ensures x.key <= y.key
    {
      var i :| 0 <= i < n && r[..n][i] == x;
      var j :| 0 <= j < |r| - n && r[n..][j] == y;
      assert r[i] == x && r[n + j] == y;
    }
  }
}
