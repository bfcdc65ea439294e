/**
 * The stable sort behind LINQ's `OrderBy`/`OrderByDescending`, which also
 * stands for SQL `ORDER BY` (the model breaks ties by the original order).
 * An ordering is a relation `le(a, b)`, "a may come before b"; a descending
 * order is the ascending relation with its arguments swapped.
 */
module Sorting {
  import opened Lists

  ghost predicate Total<T(!new)>(le: (T, T) -> bool) {
    forall a, b :: le(a, b) || le(b, a)
  }

  ghost predicate Transitive<T(!new)>(le: (T, T) -> bool) {
    forall a, b, c :: le(a, b) && le(b, c) ==> le(a, c)
  }

  /** Every element may come before every later one. */
  predicate Sorted<T>(s: seq<T>, le: (T, T) -> bool) {
    forall i, j :: 0 <= i < j < |s| ==> le(s[i], s[j])
  }

  /** Puts `x` before the first element it may precede; after all elements it must follow. */
  function Insert<T>(x: T, s: seq<T>, le: (T, T) -> bool): (r: seq<T>)
    ensures |r| == |s| + 1
    ensures multiset(r) == multiset(s) + multiset{x}
    decreases |s|
  {
    if s == [] || le(x, s[0]) then [x] + s
    else
      assert s == [s[0]] + s[1..];
      [s[0]] + Insert(x, s[1..], le)
  }

  /** Insertion sort; an element goes in front of the equivalent ones that followed it, so ties keep their order. */
  function SortBy<T>(s: seq<T>, le: (T, T) -> bool): (r: seq<T>)
    ensures |r| == |s|
    ensures multiset(r) == multiset(s)
    decreases |s|
  {
    if s == [] then []
    else
      assert s == [s[0]] + s[1..];
      Insert(s[0], SortBy(s[1..], le), le)
  }

  lemma {:induction false} InsertSorted<T(!new)>(x: T, s: seq<T>, le: (T, T) -> bool)
    requires Total(le) && Transitive(le) && Sorted(s, le)
    ensures Sorted(Insert(x, s, le), le)
    decreases |s|
  {
    if s == [] || le(x, s[0]) {
    } else {
      var tail := Insert(x, s[1..], le);
      InsertSorted(x, s[1..], le);
      forall j | 0 <= j < |tail| ensures le(s[0], tail[j]) {
        assert tail[j] in multiset(tail);
        if tail[j] != x {
          assert tail[j] in multiset(s[1..]);
          assert tail[j] in s[1..];
          var k :| 0 <= k < |s[1..]| && s[1..][k] == tail[j];
          assert s[k + 1] == tail[j];
        }
      }
    }
  }

  /** Under a total preorder the result of `SortBy` is sorted. */
  lemma {:induction false} SortBySorted<T(!new)>(s: seq<T>, le: (T, T) -> bool)
    requires Total(le) && Transitive(le)
    ensures Sorted(SortBy(s, le), le)
    decreases |s|
  {
    if s != [] {
      SortBySorted(s[1..], le);
      InsertSorted(s[0], SortBy(s[1..], le), le);
    }
  }

  /** Sorting an already sorted sequence changes nothing, so sorting twice is sorting once. */
  lemma {:induction false} SortByOfSorted<T>(s: seq<T>, le: (T, T) -> bool)
    requires Sorted(s, le)
    ensures SortBy(s, le) == s
    decreases |s|
  {
    if s != [] {
      SortByOfSorted(s[1..], le);
    }
  }

  lemma SortByIdempotent<T(!new)>(s: seq<T>, le: (T, T) -> bool)
    requires Total(le) && Transitive(le)
    ensures SortBy(SortBy(s, le), le) == SortBy(s, le)
  {
    SortBySorted(s, le);
    SortByOfSorted(SortBy(s, le), le);
  }

  /** The elements that tie with `y`: each may come before the other. */
  function EquivTo<T>(le: (T, T) -> bool, y: T): T -> bool {
    e => le(e, y) && le(y, e)
  }

  /** Inserting an element that ties with `y` puts it before the other ties, and any other element leaves them alone. */
  lemma {:induction false} InsertTies<T(!new)>(x: T, t: seq<T>, le: (T, T) -> bool, y: T)
    requires Transitive(le)
    ensures Filter(Insert(x, t, le), EquivTo(le, y)) == (if EquivTo(le, y)(x) then [x] + Filter(t, EquivTo(le, y)) else Filter(t, EquivTo(le, y)))
    decreases |t|
  {
    var tie := EquivTo(le, y);
    var r := Insert(x, t, le);
    if t == [] || le(x, t[0]) {
      assert r[1..] == t;
    } else {
      assert r[0] == t[0] && r[1..] == Insert(x, t[1..], le);
      InsertTies(x, t[1..], le, y);
      assert tie(x) ==> !tie(t[0]);
    }
  }

  /** `SortBy` is stable: the elements that tie with any `y` keep their input order. */
  lemma {:induction false} SortByStable<T(!new)>(s: seq<T>, le: (T, T) -> bool, y: T)
    requires Transitive(le)
    ensures Filter(SortBy(s, le), EquivTo(le, y)) == Filter(s, EquivTo(le, y))
    decreases |s|
  {
    if s != [] {
      SortByStable(s[1..], le, y);
      InsertTies(s[0], SortBy(s[1..], le), le, y);
    }
  }
}
