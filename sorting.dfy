/**
 * `Array.prototype.sort` with a numeric comparator, and Mongo's `.sort({ field: ±1 })`:
 * a stable sort by an integer key. A descending sort is an ascending sort by the negated
 * key. Elements with equal keys keep their relative order, which is what a stable sort on
 * insertion order gives.
 */
module Sorting {

  predicate SortedBy<T>(s: seq<T>, key: T -> int) {
    forall i, j | 0 <= i < j < |s| :: key(s[i]) <= key(s[j])
  }

  /** Places `x` after every element whose key is not larger than its own. */
  function Insert<T>(s: seq<T>, x: T, key: T -> int): (r: seq<T>)
    requires SortedBy(s, key)
    ensures SortedBy(r, key)
    ensures multiset(r) == multiset(s) + multiset{x}
    ensures |r| == |s| + 1
  {
    if s == [] then [x]
    else if key(x) < key(s[0]) then [x] + s
    else
      var rest := Insert(s[1..], x, key);
      assert s == [s[0]] + s[1..];
      HeadBelowRest(s[0], rest, s[1..], x, key);
      [s[0]] + rest
  }

  /** An element not above the inserted one nor above the rest stays sorted in front of both. */
  lemma HeadBelowRest<T>(h: T, rest: seq<T>, t: seq<T>, x: T, key: T -> int)
    requires multiset(rest) == multiset(t) + multiset{x}
    requires key(h) <= key(x)
    requires forall y | y in t :: key(h) <= key(y)
    requires SortedBy(rest, key)
    ensures SortedBy([h] + rest, key)
  {
    forall j | 0 <= j < |rest| ensures key(h) <= key(rest[j]) {
      assert rest[j] in multiset(rest);
    }
  }

  /** Insertion sort: each element in turn is inserted into the sorted prefix before it. */
  function SortBy<T>(s: seq<T>, key: T -> int): (r: seq<T>)
    ensures SortedBy(r, key)
    ensures multiset(r) == multiset(s)
    ensures |r| == |s|
  {
    if s == [] then []
    else
      assert s == s[..|s| - 1] + [s[|s| - 1]];
      Insert(SortBy(s[..|s| - 1], key), s[|s| - 1], key)
  }

  /** Sorting only rearranges: the elements are those of the input, as many times each. */
  lemma SortKeepsElements<T>(s: seq<T>, key: T -> int, x: T)
    ensures x in SortBy(s, key) <==> x in s
  {
    assert x in SortBy(s, key) <==> x in multiset(SortBy(s, key));
  }
}
