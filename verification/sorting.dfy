/** Ordering of index entries by a numeric key, as `std::sort` with the
    entries' `operator<` orders them before the index is laid out. */
module Sorting {

  predicate SortedBy<T>(s: seq<T>, key: T -> nat) {
    forall i, j :: 0 <= i < j < |s| ==> key(s[i]) <= key(s[j])
  }

  predicate StrictlySortedBy<T>(s: seq<T>, key: T -> nat) {
    forall i, j :: 0 <= i < j < |s| ==> key(s[i]) < key(s[j])
  }

  /** Neighbours strictly increase: the cheap check a sorted sequence needs to
      have no repeated key. */
  predicate AdjacentIncreasing<T>(s: seq<T>, key: T -> nat) {
    forall i :: 0 < i < |s| ==> key(s[i - 1]) < key(s[i])
  }

  function InsertBy<T>(x: T, s: seq<T>, key: T -> nat): (r: seq<T>)
    requires SortedBy(s, key)
    ensures SortedBy(r, key)
    ensures multiset(r) == multiset(s) + multiset{x}
    ensures forall y :: y in r ==> y == x || y in s
  {
    if |s| == 0 then [x]
    else if key(x) <= key(s[0]) then [x] + s
    else
      var rest := InsertBy(x, s[1..], key);
      forall i | 0 <= i < |rest|
        ensures key(s[0]) <= key(rest[i])
      {
        assert rest[i] in rest;
      }
      ConsSorted(s[0], rest, key);
      assert s == [s[0]] + s[1..];
      [s[0]] + rest
  }

  /** A head no larger than every element keeps a sorted tail sorted. */
  lemma ConsSorted<T>(h: T, s: seq<T>, key: T -> nat)
    requires SortedBy(s, key)
    requires forall i :: 0 <= i < |s| ==> key(h) <= key(s[i])
    ensures SortedBy([h] + s, key)
  {
    var r := [h] + s;
    forall i, j | 0 <= i < j < |r|
      ensures key(r[i]) <= key(r[j])
    {
      assert r[j] == s[j - 1];
      if i > 0 {
        assert r[i] == s[i - 1];
      }
    }
  }

  /** Insertion sort: a sorted permutation of `s`. */
  function SortBy<T>(s: seq<T>, key: T -> nat): (r: seq<T>)
    ensures SortedBy(r, key)
    ensures multiset(r) == multiset(s)
    ensures |r| == |s|
  {
    if |s| == 0 then []
    else
      assert s == [s[0]] + s[1..];
      InsertBy(s[0], SortBy(s[1..], key), key)
  }

  /** For a sorted sequence the neighbour check decides strict sortedness. */
  lemma {:induction false} AdjacentIncreasingIsStrict<T>(s: seq<T>, key: T -> nat)
    requires SortedBy(s, key)
    ensures AdjacentIncreasing(s, key) <==> StrictlySortedBy(s, key)
  {
    if AdjacentIncreasing(s, key) {
      forall i, j | 0 <= i < j < |s|
        ensures key(s[i]) < key(s[j])
      {
        assert key(s[i]) <= key(s[j - 1]) < key(s[j]);
      }
    }
  }
}
