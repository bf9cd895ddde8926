/** A stable sort by a comparison, and when its result does not depend on the input order. */
module Sorting {
  import opened Prelude

  /** Inserts `x` before the first element that must come after it, behind equal ones. */
  function InsertBy<T>(s: seq<T>, x: T, before: (T, T) -> bool): (r: seq<T>)
    ensures multiset(r) == multiset(s) + multiset{x}
  {
    if s == [] then [x]
    else if before(x, s[0]) then [x] + s
    else
      assert s == [s[0]] + s[1..];
      [s[0]] + InsertBy(s[1..], x, before)
  }

  /** Sorts stably: `before(a, b)` means `a` must stand ahead of `b`. */
  function SortBy<T>(s: seq<T>, before: (T, T) -> bool): (r: seq<T>)
    ensures multiset(r) == multiset(s)
  {
    if s == [] then []
    else
      assert s == s[..|s| - 1] + [s[|s| - 1]];
      InsertBy(SortBy(s[..|s| - 1], before), s[|s| - 1], before)
  }

  /** On the elements of `xs`, `before` is a strict total order. */
  ghost predicate StrictOn<T(!new)>(xs: set<T>, before: (T, T) -> bool) {
    && (forall a :: a in xs ==> !before(a, a))
    && (forall a, b :: a in xs && b in xs && a != b ==> before(a, b) || before(b, a))
    && (forall a, b, c :: a in xs && b in xs && c in xs && before(a, b) && before(b, c) ==> before(a, c))
  }

  ghost predicate Sorted<T>(s: seq<T>, before: (T, T) -> bool) {
    forall i, j :: 0 <= i < j < |s| ==> before(s[i], s[j])
  }

  ghost predicate Distinct<T>(s: seq<T>) {
    forall i, j :: 0 <= i < j < |s| ==> s[i] != s[j]
  }

  lemma {:induction false} InsertSorted<T(!new)>(s: seq<T>, x: T, before: (T, T) -> bool, xs: set<T>)
    requires StrictOn(xs, before) && x in xs && x !in s && (forall y :: y in s ==> y in xs) && Sorted(s, before)
    ensures Sorted(InsertBy(s, x, before), before)
    ensures forall y :: y in InsertBy(s, x, before) <==> y in s || y == x
  {
    if s != [] {
      assert s == [s[0]] + s[1..];
      if before(x, s[0]) {
        forall j | 0 <= j < |s| ensures before(x, s[j]) {
          assert s[j] in s && s[0] in s;
          if j > 0 { assert before(s[0], s[j]); }
        }
      } else {
        InsertSorted(s[1..], x, before, xs);
        var rest := InsertBy(s[1..], x, before);
        assert s[0] in s;
        forall j | 0 <= j < |rest| ensures before(s[0], rest[j]) {
          assert rest[j] in rest;
          if rest[j] != x {
            var k :| 0 <= k < |s[1..]| && s[1..][k] == rest[j];
            assert s[k + 1] == rest[j];
          }
        }
      }
    }
  }

  lemma {:induction false} SortSorted<T(!new)>(s: seq<T>, before: (T, T) -> bool)
    requires Distinct(s) && StrictOn(ToSet(s), before)
    ensures Sorted(SortBy(s, before), before)
    ensures forall y :: y in SortBy(s, before) <==> y in s
  {
    if s != [] {
      var front, last := s[..|s| - 1], s[|s| - 1];
      assert s == front + [last];
      assert forall y :: y in ToSet(front) ==> y in ToSet(s);
      SortSorted(front, before);
      InsertSorted(SortBy(front, before), last, before, ToSet(s));
    }
  }

  lemma HeadFirst<T>(s: seq<T>, x: T, before: (T, T) -> bool)
    requires Sorted(s, before) && x in s
    ensures x == s[0] || before(s[0], x)
  {
    var i :| 0 <= i < |s| && s[i] == x;
  }

  lemma TailWithoutHead<T(!new)>(s: seq<T>, before: (T, T) -> bool)
    requires Sorted(s, before) && s != [] && !before(s[0], s[0])
    ensures ToSet(s[1..]) == ToSet(s) - {s[0]}
  {
    assert s == [s[0]] + s[1..];
    forall y | y in s[1..] ensures y != s[0] {
      var i :| 0 <= i < |s[1..]| && s[1..][i] == y;
      assert before(s[0], s[i + 1]);
    }
  }

  /** Two sorted lists with the same elements are the same list. */
  lemma {:induction false} SortedIsUnique<T(!new)>(a: seq<T>, b: seq<T>, before: (T, T) -> bool)
    requires Sorted(a, before) && Sorted(b, before) && StrictOn(ToSet(a), before)
    requires ToSet(a) == ToSet(b)
    ensures a == b
  {
    assert a == [] <==> b == [] by {
      assert a != [] ==> a[0] in ToSet(a);
      assert b != [] ==> b[0] in ToSet(b);
    }
    if a != [] {
      assert a[0] in ToSet(a) && b[0] in ToSet(b);
      HeadFirst(a, b[0], before);
      HeadFirst(b, a[0], before);
      assert a[0] == b[0];
      TailWithoutHead(a, before);
      TailWithoutHead(b, before);
      SortedIsUnique(a[1..], b[1..], before);
      assert a == [a[0]] + a[1..] && b == [b[0]] + b[1..];
    }
  }

  /** Sorting decides equality as sets: the order in which distinct elements were given does not matter. */
  lemma SortIgnoresOrder<T(!new)>(a: seq<T>, b: seq<T>, before: (T, T) -> bool)
    requires Distinct(a) && Distinct(b)
    requires StrictOn(ToSet(a), before) && StrictOn(ToSet(b), before)
    ensures SortBy(a, before) == SortBy(b, before) <==> ToSet(a) == ToSet(b)
  {
    var sa, sb := SortBy(a, before), SortBy(b, before);
    assert Sorted(sa, before) && ToSet(sa) == ToSet(a) by { SortSorted(a, before); }
    assert Sorted(sb, before) && ToSet(sb) == ToSet(b) by { SortSorted(b, before); }
    if ToSet(a) == ToSet(b) {
      SortedIsUnique(sa, sb, before);
    }
  }
}
