/** Stable sorting by a descending key: the behaviour of Python's
    `list.sort(key=..., reverse=True)`, which keeps elements with equal keys
    in their original order. */
module Sorting {

  /** Inserts `x` after every element whose key is greater than its own and
      before the rest. */
  function Insert<T(==)>(x: T, s: seq<T>, key: T -> real): (r: seq<T>)
    ensures |r| == |s| + 1
    ensures multiset(r) == multiset(s) + multiset{x}
  {
    if s == [] then [x]
    else if key(s[0]) <= key(x) then [x] + s
    else
      assert s == [s[0]] + s[1..];
      [s[0]] + Insert(x, s[1..], key)
  }

  /** Insertion sort by descending key; elements with equal keys keep their
      relative order. */
  function SortDescending<T(==)>(s: seq<T>, key: T -> real): (r: seq<T>)
    ensures |r| == |s|
    ensures multiset(r) == multiset(s)
  {
    if s == [] then []
    else
      assert s == [s[0]] + s[1..];
      Insert(s[0], SortDescending(s[1..], key), key)
  }

  ghost predicate Descending<T>(s: seq<T>, key: T -> real) {
    forall i, j :: 0 <= i < j < |s| ==> key(s[i]) >= key(s[j])
  }

  /** Ordered by descending key, and among equal keys by ascending rank. */
  ghost predicate DescendingThenAscending<T>(s: seq<T>, key: T -> real, rank: T -> int) {
    forall i, j :: 0 <= i < j < |s| ==>
      key(s[i]) > key(s[j]) || (key(s[i]) == key(s[j]) && rank(s[i]) < rank(s[j]))
  }

  ghost predicate RankIncreasing<T>(s: seq<T>, rank: T -> int) {
    forall i, j :: 0 <= i < j < |s| ==> rank(s[i]) < rank(s[j])
  }

  /** Every element of an insertion is the inserted one or came from `s`. */
  lemma InsertMember<T>(x: T, s: seq<T>, key: T -> real, j: nat)
    requires j < |Insert(x, s, key)|
    ensures Insert(x, s, key)[j] == x || Insert(x, s, key)[j] in s
  {
    var r := Insert(x, s, key);
    assert r[j] in multiset(r);
  }

  lemma {:induction false} InsertDescending<T>(x: T, s: seq<T>, key: T -> real)
    requires Descending(s, key)
    ensures Descending(Insert(x, s, key), key)
  {
    var r := Insert(x, s, key);
    if s != [] && key(s[0]) > key(x) {
      InsertDescending(x, s[1..], key);
      var tail := Insert(x, s[1..], key);
      assert r == [s[0]] + tail;
      forall j | 0 <= j < |tail|
        ensures key(s[0]) >= key(tail[j])
      {
        InsertMember(x, s[1..], key, j);
        if tail[j] != x {
          var k :| 0 <= k < |s[1..]| && s[1..][k] == tail[j];
          assert s[k + 1] == tail[j];
        }
      }
      forall i, j | 0 <= i < j < |r|
        ensures key(r[i]) >= key(r[j])
      {
        if i == 0 {
          assert r[j] == tail[j - 1];
        } else {
          assert r[i] == tail[i - 1] && r[j] == tail[j - 1];
        }
      }
    } else if s != [] {
      assert r == [x] + s;
      forall i, j | 0 <= i < j < |r|
        ensures key(r[i]) >= key(r[j])
      {
        if i == 0 {
          assert r[j] == s[j - 1];
          assert key(s[0]) >= key(s[j - 1]);
        } else {
          assert r[i] == s[i - 1] && r[j] == s[j - 1];
        }
      }
    }
  }

  /** The sorted sequence is non-increasing in the key. */
  lemma {:induction false} SortIsDescending<T>(s: seq<T>, key: T -> real)
    ensures Descending(SortDescending(s, key), key)
  {
    if s != [] {
      SortIsDescending(s[1..], key);
      InsertDescending(s[0], SortDescending(s[1..], key), key);
    }
  }

  lemma {:induction false} InsertOrdered<T>(x: T, s: seq<T>, key: T -> real, rank: T -> int)
    requires DescendingThenAscending(s, key, rank)
    requires forall k :: 0 <= k < |s| ==> rank(x) < rank(s[k])
    ensures DescendingThenAscending(Insert(x, s, key), key, rank)
  {
    if s != [] && key(s[0]) > key(x) {
      InsertOrdered(x, s[1..], key, rank);
      var tail := Insert(x, s[1..], key);
      forall j | 0 <= j < |tail|
        ensures key(s[0]) > key(tail[j]) || (key(s[0]) == key(tail[j]) && rank(s[0]) < rank(tail[j]))
      {
        assert tail[j] in multiset(tail);
        if tail[j] != x {
          assert tail[j] in multiset(s[1..]);
          var k :| 0 <= k < |s[1..]| && s[1..][k] == tail[j];
          assert s[k + 1] == tail[j];
        }
      }
    }
  }

  /** Stability: when the input is in increasing rank, equal keys come out in
      increasing rank. */
  lemma {:induction false} SortIsStable<T>(s: seq<T>, key: T -> real, rank: T -> int)
    requires RankIncreasing(s, rank)
    ensures DescendingThenAscending(SortDescending(s, key), key, rank)
  {
    if s != [] {
      SortIsStable(s[1..], key, rank);
      var sorted := SortDescending(s[1..], key);
      forall k | 0 <= k < |sorted|
        ensures rank(s[0]) < rank(sorted[k])
      {
        assert sorted[k] in multiset(sorted);
        assert sorted[k] in multiset(s[1..]);
        var m :| 0 <= m < |s[1..]| && s[1..][m] == sorted[k];
        assert s[m + 1] == sorted[k];
      }
      InsertOrdered(s[0], sorted, key, rank);
    }
  }
}
