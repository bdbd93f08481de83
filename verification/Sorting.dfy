/** Sorting by a total order, as the standard library's `sort` promises it. */
module Sorting {

  ghost predicate TotalOrder<T(!new)>(le: (T, T) -> bool) {
    && (forall a, b :: le(a, b) || le(b, a))
    && (forall a, b :: le(a, b) && le(b, a) ==> a == b)
    && (forall a, b, c :: le(a, b) && le(b, c) ==> le(a, c))
  }

  ghost predicate SortedBy<T>(le: (T, T) -> bool, s: seq<T>) {
    forall i, j | 0 <= i < j < |s| :: le(s[i], s[j])
  }

  /** Sorted, and the same elements with the same multiplicities. */
  ghost predicate IsSortOf<T>(le: (T, T) -> bool, s: seq<T>, sorted: seq<T>) {
    SortedBy(le, sorted) && multiset(sorted) == multiset(s)
  }

  function Insert<T>(le: (T, T) -> bool, x: T, s: seq<T>): seq<T> {
    if s == [] || le(x, s[0]) then [x] + s else [s[0]] + Insert(le, x, s[1..])
  }

  function Sort<T>(le: (T, T) -> bool, s: seq<T>): seq<T> {
    if s == [] then [] else Insert(le, s[0], Sort(le, s[1..]))
  }

  lemma {:induction false} InsertSorts<T(!new)>(le: (T, T) -> bool, x: T, s: seq<T>)
    requires TotalOrder(le) && SortedBy(le, s)
    ensures SortedBy(le, Insert(le, x, s)) && multiset(Insert(le, x, s)) == multiset(s) + multiset{x}
  {
    if s == [] {
    } else if le(x, s[0]) {
      forall j | 0 <= j < |s|
        ensures le(x, s[j])
      {
        assert le(s[0], s[j]);
      }
    } else {
      InsertSorts(le, x, s[1..]);
      var rest := Insert(le, x, s[1..]);
      assert s == [s[0]] + s[1..];
      forall j | 0 <= j < |rest|
        ensures le(s[0], rest[j])
      {
        assert rest[j] in multiset(rest);
        assert rest[j] == x || rest[j] in s[1..];
      }
    }
  }

  lemma {:induction false} SortSorts<T(!new)>(le: (T, T) -> bool, s: seq<T>)
    requires TotalOrder(le)
    ensures IsSortOf(le, s, Sort(le, s))
  {
    if s != [] {
      SortSorts(le, s[1..]);
      InsertSorts(le, s[0], Sort(le, s[1..]));
      assert s == [s[0]] + s[1..];
    }
  }
}
