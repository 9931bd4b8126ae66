/** Stable sorting by a key. */
module Sorting {
  function Insert<T>(key: T -> int, x: T, s: seq<T>): (r: seq<T>)
    ensures |r| == |s| + 1
  {
    if s == [] || key(x) < key(s[0]) then [x] + s else [s[0]] + Insert(key, x, s[1..])
  }

  function SortBy<T>(key: T -> int, s: seq<T>): (r: seq<T>)
    ensures |r| == |s|
  {
    if s == [] then [] else Insert(key, s[|s| - 1], SortBy(key, s[..|s| - 1]))
  }

  lemma {:induction false} InsertMembers<T>(key: T -> int, x: T, s: seq<T>, y: T)
    ensures y in Insert(key, x, s) <==> y == x || y in s
    decreases |s|
  {
    if s != [] && key(x) >= key(s[0]) {
      InsertMembers(key, x, s[1..], y);
      assert s == [s[0]] + s[1..];
    }
  }

  lemma {:induction false} SortMembers<T>(key: T -> int, s: seq<T>, y: T)
    ensures y in SortBy(key, s) <==> y in s
    decreases |s|
  {
    if s != [] {
      var front := s[..|s| - 1];
      SortMembers(key, front, y);
      InsertMembers(key, s[|s| - 1], SortBy(key, front), y);
      assert s == front + [s[|s| - 1]];
    }
  }

  predicate InOrder<T>(key: T -> int, s: seq<T>) {
    forall i, j :: 0 <= i < j < |s| ==> key(s[i]) <= key(s[j])
  }

  lemma {:induction false} InsertInOrder<T>(key: T -> int, x: T, s: seq<T>)
    requires InOrder(key, s)
    ensures InOrder(key, Insert(key, x, s))
    decreases |s|
  {
    if s != [] && key(x) >= key(s[0]) {
      InsertInOrder(key, x, s[1..]);
      var r := Insert(key, x, s[1..]);
      forall j | 0 <= j < |r|
        ensures key(s[0]) <= key(r[j])
      {
        InsertMembers(key, x, s[1..], r[j]);
      }
    }
  }

  lemma {:induction false} SortInOrder<T>(key: T -> int, s: seq<T>)
    ensures InOrder(key, SortBy(key, s))
    decreases |s|
  {
    if s != [] {
      SortInOrder(key, s[..|s| - 1]);
      InsertInOrder(key, s[|s| - 1], SortBy(key, s[..|s| - 1]));
    }
  }
}
