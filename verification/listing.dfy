/** Row selection for the listing routes. A `findMany` with a `where` and an
    `orderBy` is the table's rows, already in the requested order, with the
    non-matching rows removed. */
module Listing {

  /** The rows that satisfy `keep`, in their original order. */
  function Filter<T>(s: seq<T>, keep: T -> bool): (r: seq<T>)
    ensures |r| <= |s|
    ensures forall i :: 0 <= i < |r| ==> keep(r[i])
    ensures forall i :: 0 <= i < |s| && keep(s[i]) ==> s[i] in r
  {
    if s == [] then []
    else (if keep(s[0]) then [s[0]] else []) + Filter(s[1..], keep)
  }

  /** Every kept row is a row of the input. */
  lemma {:induction false} FilterSubset<T>(s: seq<T>, keep: T -> bool)
    ensures forall i :: 0 <= i < |Filter(s, keep)| ==> Filter(s, keep)[i] in s
  {
    if s != [] {
      FilterSubset(s[1..], keep);
      var h := if keep(s[0]) then [s[0]] else [];
      var f := Filter(s[1..], keep);
      assert Filter(s, keep) == h + f;
      forall i | 0 <= i < |h + f| ensures (h + f)[i] in s {
        if i >= |h| {
          assert (h + f)[i] == f[i - |h|];
          assert f[i - |h|] in s[1..];
        }
      }
    }
  }

  /** The first `n` rows (`take: n`), or all of them when there are fewer. */
  function Take<T>(s: seq<T>, n: nat): (r: seq<T>)
    ensures |r| == if n < |s| then n else |s|
    ensures r == s[..|r|]
  {
    if n < |s| then s[..n] else s
  }

  /** Every row comes `before` every later row. */
  predicate Ordered<T>(s: seq<T>, before: (T, T) -> bool) {
    forall i, j :: 0 <= i < j < |s| ==> before(s[i], s[j])
  }

  /** Removing rows keeps the remaining ones in the order of the query. */
  lemma {:induction false} FilterKeepsOrder<T>(s: seq<T>, keep: T -> bool, before: (T, T) -> bool)
    requires Ordered(s, before)
    ensures Ordered(Filter(s, keep), before)
    decreases |s|
  {
    if s != [] {
      var rest := s[1..];
      assert Ordered(rest, before) by {
        forall i, j | 0 <= i < j < |rest| ensures before(rest[i], rest[j]) {
          assert rest[i] == s[i + 1] && rest[j] == s[j + 1];
        }
      }
      FilterKeepsOrder(rest, keep, before);
      FilterSubset(rest, keep);
      var f := Filter(rest, keep);
      if keep(s[0]) {
        var r := [s[0]] + f;
        forall i, j | 0 <= i < j < |r| ensures before(r[i], r[j]) {
          if i == 0 {
            assert r[j] == f[j - 1];
            var k :| 0 <= k < |rest| && rest[k] == r[j];
            assert s[k + 1] == r[j];
          } else {
            assert r[i] == f[i - 1] && r[j] == f[j - 1];
          }
        }
      }
    }
  }

  /** No row appears twice, as in any listing of a table with a key. */
  predicate Distinct<T(==)>(s: seq<T>) {
    forall i, j :: 0 <= i < j < |s| ==> s[i] != s[j]
  }

  /** The distinct rows that satisfy `keep`. */
  function Matches<T(==)>(s: seq<T>, keep: T -> bool): set<T> {
    set x | x in s && keep(x)
  }

  /** The tail of a listing without repeats has none, and lacks the head. */
  lemma DistinctTail<T>(s: seq<T>)
    requires Distinct(s) && s != []
    ensures Distinct(s[1..]) && s[0] !in s[1..]
  {
    var t := s[1..];
    forall i, j | 0 <= i < j < |t| ensures t[i] != t[j] {
      assert t[i] == s[i + 1] && t[j] == s[j + 1];
    }
    forall k | 0 <= k < |t| ensures t[k] != s[0] {
      assert t[k] == s[k + 1];
    }
  }

  lemma {:induction false} DistinctCard<T>(s: seq<T>)
    requires Distinct(s)
    ensures |set x | x in s| == |s|
  {
    if s != [] {
      var t := s[1..];
      DistinctTail(s);
      DistinctCard(t);
      assert (set x | x in s) == {s[0]} + (set x | x in t);
    }
  }

  lemma {:induction false} FilterDistinct<T>(s: seq<T>, keep: T -> bool)
    requires Distinct(s)
    ensures Distinct(Filter(s, keep))
  {
    if s != [] {
      DistinctTail(s);
      FilterDistinct(s[1..], keep);
      FilterSubset(s[1..], keep);
    }
  }

  /** Filtering a listing without repeated rows gives one without repeats,
      holding each matching row exactly once. */
  lemma FilterCount<T>(s: seq<T>, keep: T -> bool)
    ensures Distinct(s) ==>
      && Distinct(Filter(s, keep))
      && |Filter(s, keep)| == |Matches(s, keep)|
  {
    if Distinct(s) {
      var f := Filter(s, keep);
      FilterDistinct(s, keep);
      FilterSubset(s, keep);
      DistinctCard(f);
      assert (set x | x in f) == Matches(s, keep);
    }
  }

  /** Taking the first `n` matches of a listing without repeated rows:
      the result has no repeats, holds min(n, number of matches) rows, and
      never skips a match in favour of a later one. */
  lemma {:induction false} TakeFilter<T>(s: seq<T>, keep: T -> bool, n: nat)
    ensures Distinct(s) ==>
      var r := Take(Filter(s, keep), n);
      && Distinct(r)
      && |Matches(s, keep)| == |Filter(s, keep)|
      && |r| == (if n < |Matches(s, keep)| then n else |Matches(s, keep)|)
      && forall i, j :: 0 <= i < j < |s| && keep(s[i]) && s[j] in r ==> s[i] in r
  {
    if Distinct(s) {
      var f := Filter(s, keep);
      FilterCount(s, keep);
      var r := Take(f, n);
      forall i, j | 0 <= i < j < |s| && keep(s[i]) && s[j] in r ensures s[i] in r {
        TakePrefixClosed(s, keep, n, i, j);
      }
    }
  }

  lemma {:induction false} TakePrefixClosed<T>(s: seq<T>, keep: T -> bool, n: nat, i: nat, j: nat)
    requires Distinct(s)
    requires i < j < |s| && keep(s[i])
    requires s[j] in Take(Filter(s, keep), n)
    ensures s[i] in Take(Filter(s, keep), n)
    decreases i
  {
    DistinctTail(s);
    var t := s[1..];
    var f := Filter(t, keep);
    var r := Take(Filter(s, keep), n);
    assert s[j] == t[j - 1];
    if keep(s[0]) {
      assert Filter(s, keep) == [s[0]] + f;
      assert |r| > 0;
      if i == 0 {
        assert r[0] == s[0];
      } else {
        TakeCons(s[0], f, n);
        var r' := Take(f, n - 1);
        assert r == [s[0]] + r' && s[j] != s[0];
        assert s[j] in r';
        assert s[i] == t[i - 1] && keep(t[i - 1]);
        assert t[j - 1] in Take(f, n - 1);
        TakePrefixClosed(t, keep, n - 1, i - 1, j - 1);
      }
    } else {
      assert Filter(s, keep) == f;
      assert i > 0 && s[i] == t[i - 1];
      assert t[j - 1] in Take(f, n);
      TakePrefixClosed(t, keep, n, i - 1, j - 1);
    }
  }

  lemma TakeCons<T>(x: T, f: seq<T>, n: nat)
    requires n > 0
    ensures Take([x] + f, n) == [x] + Take(f, n - 1)
  {
    if n - 1 < |f| {
      assert ([x] + f)[..n] == [x] + f[..n - 1];
    }
  }
}
