/** Filtering and flattening, with the laws the other modules use. */
module Sequences {
  import opened Options

  function Filter<T>(keep: T -> bool, s: seq<T>): (r: seq<T>)
    ensures |r| <= |s|
  {
    if s == [] then [] else (if keep(s[0]) then [s[0]] else []) + Filter(keep, s[1..])
  }

  lemma {:induction false} FilterMembers<T(!new)>(keep: T -> bool, s: seq<T>)
    ensures forall x :: x in Filter(keep, s) <==> x in s && keep(x)
  {
    if s != [] {
      FilterMembers(keep, s[1..]);
      assert s == [s[0]] + s[1..];
    }
  }

  /** The first position of an element that satisfies the test. */
  function Position<T>(test: T -> bool, s: seq<T>): (r: Option<nat>)
    ensures r.Some? ==> r.value < |s| && test(s[r.value]) && forall i :: 0 <= i < r.value ==> !test(s[i])
    ensures r.None? ==> forall i :: 0 <= i < |s| ==> !test(s[i])
  {
    if s == [] then None
    else if test(s[0]) then Some(0)
    else
      assert forall i :: 1 <= i < |s| ==> s[i] == s[1..][i - 1];
      match Position(test, s[1..])
      case Some(i) => Some(i + 1)
      case None => None
  }

  function FlatMap<T, U>(f: T -> seq<U>, s: seq<T>): seq<U> {
    if s == [] then [] else f(s[0]) + FlatMap(f, s[1..])
  }

  lemma {:induction false} FilterConcat<T>(keep: T -> bool, a: seq<T>, b: seq<T>)
    ensures Filter(keep, a + b) == Filter(keep, a) + Filter(keep, b)
  {
    if a == [] {
      assert a + b == b;
    } else {
      var first, rest := if keep(a[0]) then [a[0]] else [], Filter(keep, a[1..]);
      FilterConcat(keep, a[1..], b);
      assert (a + b)[1..] == a[1..] + b;
      assert first + (rest + Filter(keep, b)) == first + rest + Filter(keep, b);
    }
  }

  lemma {:induction false} FlatMapConcat<T, U>(f: T -> seq<U>, a: seq<T>, b: seq<T>)
    ensures FlatMap(f, a + b) == FlatMap(f, a) + FlatMap(f, b)
  {
    if a == [] {
      assert a + b == b;
    } else {
      FlatMapConcat(f, a[1..], b);
      assert (a + b)[1..] == a[1..] + b && (a + b)[0] == a[0];
    }
  }

  lemma {:induction false} FlatMapNothing<T, U>(f: T -> seq<U>, s: seq<T>)
    requires forall x :: x in s ==> f(x) == []
    ensures FlatMap(f, s) == []
  {
    if s != [] {
      FlatMapNothing(f, s[1..]);
    }
  }

  /** A filter is the identity exactly when it keeps everything, and shortens
      otherwise. */
  lemma {:induction false} FilterIdentity<T(!new)>(keep: T -> bool, s: seq<T>)
    ensures Filter(keep, s) == s <==> forall x :: x in s ==> keep(x)
    ensures Filter(keep, s) == s <==> |Filter(keep, s)| == |s|
  {
    if s != [] {
      FilterIdentity(keep, s[1..]);
      assert s == [s[0]] + s[1..];
      if keep(s[0]) {
        assert Filter(keep, s)[1..] == Filter(keep, s[1..]);
      }
    }
  }

  /** What is kept is kept as often as it came. */
  lemma {:induction false} FilterCounts<T>(keep: T -> bool, s: seq<T>, x: T)
    ensures multiset(Filter(keep, s))[x] == if keep(x) then multiset(s)[x] else 0
  {
    if s != [] {
      var first, rest := if keep(s[0]) then [s[0]] else [], Filter(keep, s[1..]);
      FilterCounts(keep, s[1..], x);
      assert multiset(s) == multiset([s[0]]) + multiset(s[1..]) by {
        assert s == [s[0]] + s[1..];
      }
      assert multiset(first + rest) == multiset(first) + multiset(rest);
    }
  }

  lemma FilterStep<T>(keep: T -> bool, s: seq<T>, i: nat)
    requires i < |s|
    ensures Filter(keep, s[i..]) == (if keep(s[i]) then [s[i]] else []) + Filter(keep, s[i + 1..])
  {
    assert s[i..][1..] == s[i + 1..];
  }

  lemma FlatMapStep<T, U>(f: T -> seq<U>, s: seq<T>, i: nat)
    requires i < |s|
    ensures FlatMap(f, s[i..]) == f(s[i]) + FlatMap(f, s[i + 1..])
  {
    assert s[i..][1..] == s[i + 1..];
  }

  predicate Pairwise<T>(apart: (T, T) -> bool, s: seq<T>) {
    forall i, j :: 0 <= i < j < |s| ==> apart(s[i], s[j])
  }

  lemma PairwiseCons<T>(apart: (T, T) -> bool, x: T, s: seq<T>)
    requires Pairwise(apart, s) && forall j :: 0 <= j < |s| ==> apart(x, s[j])
    ensures Pairwise(apart, [x] + s)
  {
  }

  /** A filter keeps what holds of every two elements in order. */
  lemma {:induction false} FilterPairwise<T(!new)>(keep: T -> bool, apart: (T, T) -> bool, s: seq<T>)
    requires Pairwise(apart, s)
    ensures Pairwise(apart, Filter(keep, s))
  {
    if s != [] {
      var rest := Filter(keep, s[1..]);
      FilterPairwise(keep, apart, s[1..]);
      FilterMembers(keep, s[1..]);
      forall j | 0 <= j < |rest| ensures apart(s[0], rest[j]) {
        assert rest[j] in s[1..];
      }
      PairwiseCons(apart, s[0], rest);
    }
  }
}
