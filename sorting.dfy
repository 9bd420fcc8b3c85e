/**
 * Ordering: what an ORM `orderBy` and the pages' `Array.prototype.sort` with
 * a three-way comparator compute. Insertion keeps elements the comparator
 * calls equal in input order, as the stable `sort` does.
 */
module Sorting {

  /** `a` may stand before `b` in the requested direction. */
  predicate InOrder(a: int, b: int, descending: bool)
  {
    if descending then a >= b else a <= b
  }

  predicate SortedBy<T>(s: seq<T>, key: T -> int, descending: bool)
  {
    forall i, j :: 0 <= i < j < |s| ==> InOrder(key(s[i]), key(s[j]), descending)
  }

  /** `le(a, b)`: the comparator lets `a` stand before `b`. */
  predicate SortedWith<T>(s: seq<T>, le: (T, T) -> bool)
  {
    forall i, j :: 0 <= i < j < |s| ==> le(s[i], s[j])
  }

  /** A comparator that ranks every pair, consistently. */
  ghost predicate TotalPreorder<T(!new)>(le: (T, T) -> bool)
  {
    && (forall a, b :: le(a, b) || le(b, a))
    && (forall a, b, c :: le(a, b) && le(b, c) ==> le(a, c))
  }

  /** Inserts `x` in front of the first element it may stand before. */
  function InsertWith<T(==)>(x: T, s: seq<T>, le: (T, T) -> bool): (r: seq<T>)
    ensures multiset(r) == multiset(s) + multiset{x}
  {
    if s == [] || le(x, s[0]) then
      [x] + s
    else
      assert s == [s[0]] + s[1..];
      [s[0]] + InsertWith(x, s[1..], le)
  }

  lemma {:induction false} InsertWithSorted<T(!new)>(x: T, s: seq<T>, le: (T, T) -> bool)
    requires TotalPreorder(le) && SortedWith(s, le)
    ensures SortedWith(InsertWith(x, s, le), le)
  {
    var r := InsertWith(x, s, le);
    if s == [] {
    } else if le(x, s[0]) {
      forall i, j | 0 <= i < j < |r| ensures le(r[i], r[j]) {
        if i == 0 && j > 1 {
          assert le(s[0], s[j - 1]);
        }
      }
    } else {
      var tail := InsertWith(x, s[1..], le);
      assert SortedWith(s[1..], le) by {
        forall i, j | 0 <= i < j < |s[1..]| ensures le(s[1..][i], s[1..][j]) {
          assert s[1..][i] == s[i + 1] && s[1..][j] == s[j + 1];
        }
      }
      InsertWithSorted(x, s[1..], le);
      assert le(s[0], x);
      forall k | 0 <= k < |tail| ensures le(s[0], tail[k]) {
        assert tail[k] in multiset(tail);
        if tail[k] != x {
          assert tail[k] in multiset(s[1..]);
          var m :| 0 <= m < |s[1..]| && s[1..][m] == tail[k];
          assert s[m + 1] == tail[k];
        }
      }
      forall i, j | 0 <= i < j < |r| ensures le(r[i], r[j]) {
        if i == 0 {
          assert r[j] == tail[j - 1];
        } else {
          assert r[i] == tail[i - 1] && r[j] == tail[j - 1];
        }
      }
    }
  }

  /** The elements of `s`, ordered by `le`. */
  function SortWith<T(==,!new)>(s: seq<T>, le: (T, T) -> bool): (r: seq<T>)
    requires TotalPreorder(le)
    ensures multiset(r) == multiset(s)
    ensures SortedWith(r, le)
  {
    if s == [] then []
    else
      assert s == [s[0]] + s[1..];
      var sorted := SortWith(s[1..], le);
      InsertWithSorted(s[0], sorted, le);
      InsertWith(s[0], sorted, le)
  }

  /** The comparator of a numeric key. */
  function ByKey<T(!new)>(key: T -> int, descending: bool): (le: (T, T) -> bool)
    ensures forall a, b :: le(a, b) == InOrder(key(a), key(b), descending)
  {
    (a: T, b: T) => InOrder(key(a), key(b), descending)
  }

  /** The elements of `s` ordered by `key`. */
  function SortBy<T(==,!new)>(s: seq<T>, key: T -> int, descending: bool): (r: seq<T>)
    ensures multiset(r) == multiset(s)
    ensures SortedBy(r, key, descending)
  {
    SortWith(s, ByKey(key, descending))
  }

  /** The multiset equality of a sort, read as membership and length. */
  lemma SameElements<T>(r: seq<T>, s: seq<T>)
    requires multiset(r) == multiset(s)
    ensures |r| == |s|
    ensures forall x :: x in r <==> x in s
  {
    assert |multiset(r)| == |multiset(s)|;
    forall x ensures x in r <==> x in s {
      assert x in r <==> x in multiset(r);
      assert x in s <==> x in multiset(s);
    }
  }

  lemma SortByMembers<T(!new)>(s: seq<T>, key: T -> int, descending: bool)
    ensures |SortBy(s, key, descending)| == |s|
    ensures forall x :: x in SortBy(s, key, descending) <==> x in s
  {
    SameElements(SortBy(s, key, descending), s);
  }
}
