/** Small datatypes and sequence functions shared by the models. */
module Prelude {

  /** The greatest integer that the host language's numbers hold exactly. */
  const MAX_SAFE_INTEGER := 9007199254740991

  datatype Option<+T> = None | Some(value: T)

  /** A computation that the source may end with a thrown error. */
  datatype Result<+T> = Ok(value: T) | Thrown(error: string) {
    predicate IsFailure() {
      Thrown?
    }

    function PropagateFailure<U>(): Result<U>
      requires Thrown?
    {
      Thrown(error)
    }

    function Extract(): T
      requires Ok?
    {
      value
    }
  }

  /** The elements of `s` that satisfy `keep`, in order. */
  function Filter<T(!new)>(s: seq<T>, keep: T -> bool): (r: seq<T>)
    ensures forall x :: x in r <==> x in s && keep(x)
  {
    if s == [] then []
    else if keep(s[0]) then [s[0]] + Filter(s[1..], keep)
    else Filter(s[1..], keep)
  }

  /** The image of every element, in order. */
  function Each<T, U>(s: seq<T>, f: T -> U): (r: seq<U>)
    ensures |r| == |s| && forall i :: 0 <= i < |s| ==> r[i] == f(s[i])
  {
    seq(|s|, i requires 0 <= i < |s| => f(s[i]))
  }

  predicate Ascending(s: seq<int>) {
    forall i, j :: 0 <= i < j < |s| ==> s[i] < s[j]
  }

  lemma {:induction false} FilterAscending(s: seq<int>, keep: int -> bool)
    requires Ascending(s)
    ensures Ascending(Filter(s, keep))
  {
    if s != [] {
      FilterAscending(s[1..], keep);
      var rest := Filter(s[1..], keep);
      forall i | 0 <= i < |rest| ensures s[0] < rest[i] {
        assert rest[i] in rest;
        assert rest[i] in s[1..];
      }
    }
  }

  lemma AscendingCons(x: int, rest: seq<int>)
    requires Ascending(rest) && forall y :: y in rest ==> x < y
    ensures Ascending([x] + rest)
  {
    forall i | 0 <= i < |rest| ensures x < rest[i] {
      assert rest[i] in rest;
    }
  }

  /** Inserts `v` into a strictly ascending list unless it is there. */
  function Insert(s: seq<int>, v: int): (r: seq<int>)
    requires Ascending(s)
    ensures Ascending(r)
    ensures forall x :: x in r <==> x == v || x in s
  {
    assert s != [] ==> s == [s[0]] + s[1..];
    if s == [] then [v]
    else if v == s[0] then s
    else if v < s[0] then [v] + s
    else
      var rest := Insert(s[1..], v);
      AscendingCons(s[0], rest);
      [s[0]] + rest
  }

  /** The distinct values in ascending order. */
  function SortedSet(s: seq<int>): (r: seq<int>)
    ensures Ascending(r)
    ensures forall x :: x in r <==> x in s
  {
    if s == [] then [] else Insert(SortedSet(s[1..]), s[0])
  }

  function ToSet<T>(s: seq<T>): set<T> {
    set x | x in s
  }
}
