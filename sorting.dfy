/**
 * `Array.prototype.sort` with a comparator, modelled as a stable insertion sort
 * by a "may come before" relation `le`. JavaScript's sort is stable, so for a
 * comparator that is a total preorder this is the order the page shows.
 */
module Sorting {

  /** `le` relates every pair in at least one direction. */
  ghost predicate Total<T(!new)>(le: (T, T) -> bool) {
    forall a, b :: le(a, b) || le(b, a)
  }

  ghost predicate Transitive<T(!new)>(le: (T, T) -> bool) {
    forall a, b, c :: le(a, b) && le(b, c) ==> le(a, c)
  }

  /** Every element may come before every later one. */
  ghost predicate SortedBy<T>(s: seq<T>, le: (T, T) -> bool) {
    forall i, j :: 0 <= i < j < |s| ==> le(s[i], s[j])
  }

  ghost predicate AdjacentSortedBy<T>(s: seq<T>, le: (T, T) -> bool) {
    forall i :: 0 <= i < |s| - 1 ==> le(s[i], s[i + 1])
  }

  /** Places `x` before the first element it may precede. */
  function Insert<T>(x: T, s: seq<T>, le: (T, T) -> bool): (r: seq<T>)
    ensures multiset(r) == multiset(s) + multiset{x}
    ensures |r| == |s| + 1
  {
    if s == [] || le(x, s[0]) then [x] + s
    else
      assert s == [s[0]] + s[1..];
      [s[0]] + Insert(x, s[1..], le)
  }

  function InsertionSort<T>(s: seq<T>, le: (T, T) -> bool): (r: seq<T>)
    ensures multiset(r) == multiset(s)
    ensures |r| == |s|
  {
    if s == [] then []
    else
      assert s == [s[0]] + s[1..];
      Insert(s[0], InsertionSort(s[1..], le), le)
  }

  lemma {:induction false} InsertKeepsOrder<T(!new)>(x: T, s: seq<T>, le: (T, T) -> bool)
    requires Total(le)
    requires AdjacentSortedBy(s, le)
    ensures AdjacentSortedBy(Insert(x, s, le), le)
    ensures Insert(x, s, le) != [] && (Insert(x, s, le)[0] == x || (s != [] && Insert(x, s, le)[0] == s[0]))
  {
    if s != [] && !le(x, s[0]) {
      assert le(s[0], x);
      InsertKeepsOrder(x, s[1..], le);
    }
  }

  lemma {:induction false} InsertionSortOrders<T(!new)>(s: seq<T>, le: (T, T) -> bool)
    requires Total(le)
    ensures AdjacentSortedBy(InsertionSort(s, le), le)
  {
    if s != [] {
      InsertionSortOrders(s[1..], le);
      InsertKeepsOrder(s[0], InsertionSort(s[1..], le), le);
    }
  }

  /** For a transitive relation, ordered neighbours mean an ordered sequence. */
  lemma {:induction false} AdjacentToSorted<T(!new)>(s: seq<T>, le: (T, T) -> bool)
    requires Transitive(le)
    requires AdjacentSortedBy(s, le)
    ensures SortedBy(s, le)
  {
    if |s| > 1 {
      AdjacentToSorted(s[1..], le);
      assert le(s[0], s[1]);
    }
  }

  /** The result of sorting by a total preorder: a permutation of the input in order. */
  lemma SortIsOrderedPermutation<T(!new)>(s: seq<T>, le: (T, T) -> bool)
    requires Total(le) && Transitive(le)
    ensures multiset(InsertionSort(s, le)) == multiset(s)
    ensures SortedBy(InsertionSort(s, le), le)
  {
    InsertionSortOrders(s, le);
    AdjacentToSorted(InsertionSort(s, le), le);
  }
}
