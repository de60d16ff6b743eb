/**
 * Sorting a sequence by an integer key. This is the ordering the storage layer applies for
 * `.sort({ date: -1 })` on listings and for the `$sort` stage of the analytics pipeline.
 */
module Sorting {

  predicate SortedBy<T>(s: seq<T>, key: T -> int)
  {
    forall i, j :: 0 <= i < j < |s| ==> key(s[i]) <= key(s[j])
  }

  predicate StrictlySortedBy<T>(s: seq<T>, key: T -> int)
  {
    forall i, j :: 0 <= i < j < |s| ==> key(s[i]) < key(s[j])
  }

  /** No two elements share a key. */
  predicate DistinctBy<T>(s: seq<T>, key: T -> int)
  {
    forall i, j :: 0 <= i < j < |s| ==> key(s[i]) != key(s[j])
  }

  /** x placed before the first element whose key is at least its own. */
  function Insert<T(==)>(x: T, s: seq<T>, key: T -> int): (r: seq<T>)
    ensures multiset(r) == multiset(s) + multiset{x}
  {
    if s == [] || key(x) <= key(s[0]) then [x] + s
    else
      assert s == [s[0]] + s[1..];
      [s[0]] + Insert(x, s[1..], key)
  }

  lemma InsertMembers<T>(x: T, s: seq<T>, key: T -> int, y: T)
    requires y in Insert(x, s, key)
    ensures y == x || y in s
  {
    assert y in multiset(Insert(x, s, key));
  }

  lemma {:induction false} InsertSorted<T>(x: T, s: seq<T>, key: T -> int)
    requires SortedBy(s, key)
    ensures SortedBy(Insert(x, s, key), key)
    decreases |s|
  {
    if s != [] && key(x) > key(s[0]) {
      var rest := Insert(x, s[1..], key);
      InsertSorted(x, s[1..], key);
      forall y | y in rest ensures key(s[0]) <= key(y) {
        InsertMembers(x, s[1..], key, y);
      }
    }
  }

  lemma {:induction false} InsertStrict<T>(x: T, s: seq<T>, key: T -> int)
    requires StrictlySortedBy(s, key)
    requires forall y :: y in s ==> key(y) != key(x)
    ensures StrictlySortedBy(Insert(x, s, key), key)
    decreases |s|
  {
    if s == [] {
    } else if key(x) <= key(s[0]) {
      assert key(x) < key(s[0]);
    } else {
      var rest := Insert(x, s[1..], key);
      InsertStrict(x, s[1..], key);
      forall y | y in rest ensures key(s[0]) < key(y) {
        InsertMembers(x, s[1..], key, y);
      }
    }
  }

  /** The elements of s, rearranged so that keys ascend. */
  function SortBy<T(==)>(s: seq<T>, key: T -> int): (r: seq<T>)
    ensures multiset(r) == multiset(s)
    ensures SortedBy(r, key)
    ensures DistinctBy(s, key) ==> StrictlySortedBy(r, key)
  {
    if s == [] then []
    else
      var rest := SortBy(s[1..], key);
      assert s == [s[0]] + s[1..];
      InsertFirst(s, rest, key);
      Insert(s[0], rest, key)
  }

  /** Inserting the head of s into the sorted rest keeps the order, strictly when keys are distinct. */
  lemma InsertFirst<T>(s: seq<T>, rest: seq<T>, key: T -> int)
    requires s != []
    requires multiset(rest) == multiset(s[1..])
    requires SortedBy(rest, key)
    requires DistinctBy(s[1..], key) ==> StrictlySortedBy(rest, key)
    ensures SortedBy(Insert(s[0], rest, key), key)
    ensures DistinctBy(s, key) ==> StrictlySortedBy(Insert(s[0], rest, key), key)
  {
    InsertSorted(s[0], rest, key);
    if DistinctBy(s, key) {
      assert DistinctBy(s[1..], key) by {
        forall i, j | 0 <= i < j < |s[1..]| ensures key(s[1..][i]) != key(s[1..][j]) {
          assert s[1..][i] == s[i + 1] && s[1..][j] == s[j + 1];
        }
      }
      forall y | y in rest ensures key(y) != key(s[0]) {
        assert y in multiset(s[1..]);
        var j :| 0 <= j < |s[1..]| && s[1..][j] == y;
        assert s[j + 1] == y;
      }
      InsertStrict(s[0], rest, key);
    }
  }

  /** Sorting an already sorted sequence leaves it as it is: the sort is stable on ties at the front. */
  lemma {:induction false} SortBySorted<T>(s: seq<T>, key: T -> int)
    requires SortedBy(s, key)
    ensures SortBy(s, key) == s
  {
    if s != [] {
      SortBySorted(s[1..], key);
      assert s == [s[0]] + s[1..];
    }
  }
}
