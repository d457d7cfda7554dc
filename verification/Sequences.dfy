/** Sequences without repetitions, and the stable sort of Go's `sort` package. */
module Sequences {

  predicate Distinct<T(==)>(s: seq<T>) { forall i, j :: 0 <= i < j < |s| ==> s[i] != s[j] }

  // ---- Sorting ----------------------------------------------------------------------

  /** In front of the first element that comes later. */
  function InsertBy<T>(less: (T, T) -> bool, x: T, s: seq<T>): seq<T> {
    if s == [] || less(x, s[0]) then [x] + s else [s[0]] + InsertBy(less, x, s[1..])
  }

  /** `sort.SliceStable`. */
  function SortBy<T>(less: (T, T) -> bool, s: seq<T>): seq<T> {
    if s == [] then [] else InsertBy(less, s[|s| - 1], SortBy(less, s[..|s| - 1]))
  }

  /** No element comes before one in front of it. */
  predicate AscendingBy<T>(less: (T, T) -> bool, s: seq<T>) { forall i, j :: 0 <= i < j < |s| ==> !less(s[j], s[i]) }

  /** Every element comes before all those behind it. */
  predicate StrictlyBy<T>(less: (T, T) -> bool, s: seq<T>) { forall i, j :: 0 <= i < j < |s| ==> less(s[i], s[j]) }

  predicate ApartBy<T>(less: (T, T) -> bool, s: seq<T>) {
    forall i, j :: 0 <= i < j < |s| ==> less(s[i], s[j]) || less(s[j], s[i])
  }

  /** What a comparison must be for a sort by it to make sense. */
  ghost predicate Comparison<T(!new)>(less: (T, T) -> bool) {
    && (forall a, b :: less(a, b) ==> !less(b, a))
    && (forall a, b, c {:trigger less(a, b), less(b, c)} :: less(a, b) && less(b, c) ==> less(a, c))
    && (forall a, b, c {:trigger less(a, b), less(b, c)} :: !less(a, b) && !less(b, c) ==> !less(a, c))
  }

  lemma {:induction false} InsertMembers<T(!new)>(less: (T, T) -> bool, x: T, s: seq<T>)
    ensures |InsertBy(less, x, s)| == |s| + 1 && multiset(InsertBy(less, x, s)) == multiset(s) + multiset{x}
    ensures forall y :: y in InsertBy(less, x, s) <==> y == x || y in s
  {
    if s == [] || less(x, s[0]) {
    } else {
      InsertMembers(less, x, s[1..]);
      assert s == [s[0]] + s[1..];
    }
  }

  ghost predicate NoneLess<T(!new)>(less: (T, T) -> bool, s: seq<T>, x: T) { forall y :: y in s ==> !less(y, x) }

  lemma AscendingTail<T(!new)>(less: (T, T) -> bool, s: seq<T>)
    requires AscendingBy(less, s) && s != []
    ensures AscendingBy(less, s[1..]) && NoneLess(less, s[1..], s[0])
  {
  }

  lemma AscendingCons<T(!new)>(less: (T, T) -> bool, x: T, s: seq<T>)
    requires AscendingBy(less, s) && NoneLess(less, s, x)
    ensures AscendingBy(less, [x] + s)
  {
  }

  lemma {:induction false} InsertAscends<T(!new)>(less: (T, T) -> bool, x: T, s: seq<T>)
    requires Comparison(less) && AscendingBy(less, s)
    ensures AscendingBy(less, InsertBy(less, x, s))
  {
    if s == [] {
    } else if less(x, s[0]) {
      AscendingTail(less, s);
      FrontIsLess(less, x, s);
      AscendingCons(less, x, s);
    } else {
      var rest := InsertBy(less, x, s[1..]);
      AscendingTail(less, s);
      InsertAscends(less, x, s[1..]);
      InsertMembers(less, x, s[1..]);
      AscendingCons(less, s[0], rest);
    }
  }

  lemma FrontIsLess<T(!new)>(less: (T, T) -> bool, x: T, s: seq<T>)
    requires Comparison(less) && s != [] && less(x, s[0]) && NoneLess(less, s[1..], s[0])
    ensures NoneLess(less, s, x)
  {
    forall y | y in s
      ensures !less(y, x)
    {
      assert !less(s[0], x);
      assert y == s[0] || y in s[1..];
    }
  }

  /** The sorted list has the same elements, in order. */
  lemma {:induction false} SortSorts<T(!new)>(less: (T, T) -> bool, s: seq<T>)
    requires Comparison(less)
    ensures AscendingBy(less, SortBy(less, s)) && |SortBy(less, s)| == |s| && multiset(SortBy(less, s)) == multiset(s)
    ensures forall x :: x in SortBy(less, s) <==> x in s
  {
    if s != [] {
      var front, last := s[..|s| - 1], s[|s| - 1];
      assert front + [last] == s;
      SortSorts(less, front);
      InsertMembers(less, last, SortBy(less, front));
      InsertAscends(less, last, SortBy(less, front));
    }
  }

  lemma StrictCons<T(!new)>(less: (T, T) -> bool, x: T, s: seq<T>)
    requires StrictlyBy(less, s) && forall y :: y in s ==> less(x, y)
    ensures StrictlyBy(less, [x] + s)
  {
  }

  lemma StrictTail<T(!new)>(less: (T, T) -> bool, s: seq<T>)
    requires StrictlyBy(less, s) && s != []
    ensures StrictlyBy(less, s[1..]) && forall y :: y in s[1..] ==> less(s[0], y)
  {
  }

  lemma {:induction false} InsertStrictly<T(!new)>(less: (T, T) -> bool, x: T, s: seq<T>)
    requires Comparison(less) && StrictlyBy(less, s) && forall y :: y in s ==> less(x, y) || less(y, x)
    ensures StrictlyBy(less, InsertBy(less, x, s))
  {
    if s == [] {
    } else if less(x, s[0]) {
      StrictTail(less, s);
      assert forall y :: y in s <==> y == s[0] || y in s[1..];
      StrictCons(less, x, s);
    } else {
      StrictTail(less, s);
      assert s[0] in s && forall y :: y in s[1..] ==> y in s;
      InsertStrictly(less, x, s[1..]);
      InsertMembers(less, x, s[1..]);
      StrictCons(less, s[0], InsertBy(less, x, s[1..]));
    }
  }

  lemma {:induction false} SortStrictly<T(!new)>(less: (T, T) -> bool, s: seq<T>)
    requires Comparison(less) && ApartBy(less, s)
    ensures StrictlyBy(less, SortBy(less, s))
  {
    if s != [] {
      var front, last := s[..|s| - 1], s[|s| - 1];
      SortStrictly(less, front);
      SortSorts(less, front);
      assert forall i :: 0 <= i < |front| ==> front[i] == s[i];
      InsertStrictly(less, last, SortBy(less, front));
    }
  }

  /** A list that is strictly in order is determined by its elements. */
  lemma {:induction false} StrictIsUnique<T(!new)>(less: (T, T) -> bool, a: seq<T>, b: seq<T>)
    requires Comparison(less) && StrictlyBy(less, a) && StrictlyBy(less, b) && |a| == |b|
    requires forall x :: x in a <==> x in b
    ensures a == b
    decreases |a|
  {
    if a != [] {
      assert a[0] in b;
      StrictTail(less, a);
      StrictTail(less, b);
      assert b[0] in a;
      assert a == [a[0]] + a[1..] && b == [b[0]] + b[1..];
      assert a[0] == b[0];
      assert !less(a[0], a[0]);
      assert forall x :: x in a[1..] <==> x in a && x != a[0];
      assert forall x :: x in b[1..] <==> x in b && x != b[0];
      StrictIsUnique(less, a[1..], b[1..]);
    }
  }
}
