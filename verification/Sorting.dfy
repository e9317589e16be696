/** Stable sorting, newest first, as slices.SortStableFunc does it for status lists. */
module Sorting {

  ghost predicate NewestFirst<T>(s: seq<T>, time: T -> int) {
    forall i, j | 0 <= i < j < |s| :: time(s[i]) >= time(s[j])
  }

  /** The elements with time `t`, in order. */
  function At<T>(s: seq<T>, time: T -> int, t: int): seq<T> {
    if s == [] then []
    else if time(s[0]) == t then [s[0]] + At(s[1..], time, t)
    else At(s[1..], time, t)
  }

  /** `x` in front of the first element that is not newer. */
  function Insert<T>(x: T, s: seq<T>, time: T -> int): (r: seq<T>)
    ensures multiset(r) == multiset(s) + multiset{x} && |r| == |s| + 1
  {
    if s == [] || time(x) >= time(s[0]) then [x] + s
    else
      assert s == [s[0]] + s[1..];
      [s[0]] + Insert(x, s[1..], time)
  }

  function StableSort<T>(s: seq<T>, time: T -> int): (r: seq<T>)
    ensures multiset(r) == multiset(s) && |r| == |s|
  {
    if s == [] then []
    else
      assert s == [s[0]] + s[1..];
      Insert(s[0], StableSort(s[1..], time), time)
  }

  lemma {:induction false} InsertSorted<T>(x: T, s: seq<T>, time: T -> int)
    requires NewestFirst(s, time)
    ensures NewestFirst(Insert(x, s, time), time)
  {
    if s != [] && time(x) < time(s[0]) {
      InsertSorted(x, s[1..], time);
      var r := Insert(x, s[1..], time);
      forall y | y in r
        ensures time(s[0]) >= time(y)
      {
        assert y in multiset(r);
        assert y in s[1..] || y == x;
      }
    }
  }

  lemma AtCons<T>(x: T, s: seq<T>, time: T -> int, t: int)
    ensures At([x] + s, time, t) == if time(x) == t then [x] + At(s, time, t) else At(s, time, t)
  {
    assert ([x] + s)[1..] == s;
  }

  lemma {:induction false} InsertStable<T>(x: T, s: seq<T>, time: T -> int, t: int)
    ensures At(Insert(x, s, time), time, t) == At([x] + s, time, t)
  {
    if s != [] && time(x) < time(s[0]) {
      var h, r := s[0], s[1..];
      assert Insert(x, s, time) == [h] + Insert(x, r, time) && s == [h] + r;
      hide At, Insert;
      InsertStable(x, r, time, t);
      AtCons(h, Insert(x, r, time), time, t);
      AtCons(h, r, time, t);
      AtCons(x, r, time, t);
      AtCons(x, s, time, t);
    }
  }

  /** Sorted newest first, and elements of the same time keep their order. */
  lemma {:induction false} StableSortIs<T>(s: seq<T>, time: T -> int)
    ensures NewestFirst(StableSort(s, time), time)
    ensures forall t :: At(StableSort(s, time), time, t) == At(s, time, t)
  {
    if s != [] {
      StableSortIs(s[1..], time);
      var r := StableSort(s[1..], time);
      InsertSorted(s[0], r, time);
      forall t
        ensures At(StableSort(s, time), time, t) == At(s, time, t)
      {
        InsertStable(s[0], r, time, t);
        assert ([s[0]] + r)[1..] == r;
      }
    }
  }

  lemma {:induction false} AtHas<T>(s: seq<T>, time: T -> int, t: int)
    ensures At(s, time, t) != [] <==> exists i :: 0 <= i < |s| && time(s[i]) == t
  {
    if s != [] {
      AtHas(s[1..], time, t);
      if i :| 0 <= i < |s| && time(s[i]) == t {
        assert i == 0 || s[1..][i - 1] == s[i];
      }
      if time(s[0]) != t && At(s, time, t) != [] {
        var i :| 0 <= i < |s[1..]| && time(s[1..][i]) == t;
        assert time(s[i + 1]) == t;
      }
    }
  }

  lemma {:induction false} AtConcat<T>(a: seq<T>, b: seq<T>, time: T -> int, t: int)
    ensures At(a + b, time, t) == At(a, time, t) + At(b, time, t)
  {
    if a == [] {
      assert a + b == b;
    } else {
      AtConcat(a[1..], b, time, t);
      assert (a + b)[1..] == a[1..] + b;
    }
  }

  lemma FirstHasAll<T>(a: seq<T>, b: seq<T>, time: T -> int)
    requires a != [] && NewestFirst(b, time) && At(a, time, time(a[0])) == At(b, time, time(a[0]))
    ensures b != [] && time(b[0]) >= time(a[0])
  {
    AtHas(a, time, time(a[0]));
    assert time(a[0]) == time(a[0]) && 0 < |a|;
    AtHas(b, time, time(a[0]));
  }

  /** Two lists that are sorted and agree time by time are the same: there is one stable sort. */
  lemma {:induction false} StableSortUnique<T>(a: seq<T>, b: seq<T>, time: T -> int)
    requires NewestFirst(a, time) && NewestFirst(b, time) && forall t :: At(a, time, t) == At(b, time, t)
    ensures a == b
  {
    if a == [] {
      if b != [] {
        FirstHasAll(b, a, time);
        assert false;
      }
    } else {
      FirstHasAll(a, b, time);
      FirstHasAll(b, a, time);
      assert At(a, time, time(a[0]))[0] == a[0] && At(b, time, time(a[0]))[0] == b[0];
      forall t
        ensures At(a[1..], time, t) == At(b[1..], time, t)
      {
        assert At(a, time, t) == At(b, time, t);
        assert a == [a[0]] + a[1..] && b == [b[0]] + b[1..];
        AtCons(a[0], a[1..], time, t);
        AtCons(b[0], b[1..], time, t);
        var n := if time(a[0]) == t then 1 else 0;
        assert At(a[1..], time, t) == At(a, time, t)[n..] == At(b, time, t)[n..] == At(b[1..], time, t);
      }
      StableSortUnique(a[1..], b[1..], time);
    }
  }

  ghost predicate Distinct<T, K>(s: seq<T>, f: T -> K) {
    forall i, j | 0 <= i < j < |s| :: f(s[i]) != f(s[j])
  }

  lemma InsertHas<T>(x: T, s: seq<T>, time: T -> int, y: T)
    ensures y in Insert(x, s, time) <==> y == x || y in s
  {
    assert y in multiset(Insert(x, s, time)) <==> y in multiset(s) || y == x;
  }

  lemma {:induction false} InsertDistinct<T, K>(x: T, s: seq<T>, time: T -> int, f: T -> K)
    requires Distinct(s, f) && forall i | 0 <= i < |s| :: f(s[i]) != f(x)
    ensures Distinct(Insert(x, s, time), f)
  {
    if s != [] && time(x) < time(s[0]) {
      InsertDistinct(x, s[1..], time, f);
      var r := Insert(x, s[1..], time);
      forall i | 0 <= i < |r|
        ensures f(r[i]) != f(s[0])
      {
        assert r[i] in r;
        InsertHas(x, s[1..], time, r[i]);
      }
    }
  }

  /** Sorting keeps what was distinct distinct. */
  lemma {:induction false} SortDistinct<T, K>(s: seq<T>, time: T -> int, f: T -> K)
    requires Distinct(s, f)
    ensures Distinct(StableSort(s, time), f)
  {
    if s != [] {
      SortDistinct(s[1..], time, f);
      var r := StableSort(s[1..], time);
      forall i | 0 <= i < |r|
        ensures f(r[i]) != f(s[0])
      {
        assert r[i] in r;
        SortHas(s[1..], time, r[i]);
      }
      InsertDistinct(s[0], r, time, f);
    }
  }

  lemma SortHas<T>(s: seq<T>, time: T -> int, y: T)
    ensures y in StableSort(s, time) <==> y in s
  {
    assert y in multiset(StableSort(s, time)) <==> y in multiset(s);
  }

  /** A list that is sorted already stays as it is. */
  lemma SortedStays<T>(s: seq<T>, time: T -> int)
    requires NewestFirst(s, time)
    ensures StableSort(s, time) == s
  {
    StableSortIs(s, time);
    StableSortUnique(StableSort(s, time), s, time);
  }

  /** The elements that satisfy `p`, in order. */
  function Filter<T(!new)>(s: seq<T>, p: T -> bool): (r: seq<T>)
    ensures forall y :: y in r <==> y in s && p(y)
    ensures |r| <= |s|
  {
    if s == [] then []
    else
      var rest := Filter(s[..|s| - 1], p);
      var y := s[|s| - 1];
      assert s == s[..|s| - 1] + [y];
      if p(y) then rest + [y] else rest
  }

  lemma {:induction false} FilterSorted<T(!new)>(s: seq<T>, p: T -> bool, time: T -> int)
    requires NewestFirst(s, time)
    ensures NewestFirst(Filter(s, p), time)
  {
    if s != [] {
      FilterSorted(s[..|s| - 1], p, time);
      var rest := Filter(s[..|s| - 1], p);
      forall i | 0 <= i < |rest|
        ensures time(rest[i]) >= time(s[|s| - 1])
      {
        assert rest[i] in rest && rest[i] in s[..|s| - 1];
      }
    }
  }

  lemma {:induction false} FilterDistinct<T(!new), K>(s: seq<T>, p: T -> bool, f: T -> K)
    requires Distinct(s, f)
    ensures Distinct(Filter(s, p), f)
  {
    if s != [] {
      FilterDistinct(s[..|s| - 1], p, f);
      var rest := Filter(s[..|s| - 1], p);
      forall i | 0 <= i < |rest|
        ensures f(rest[i]) != f(s[|s| - 1])
      {
        assert rest[i] in rest && rest[i] in s[..|s| - 1];
      }
    }
  }
}
