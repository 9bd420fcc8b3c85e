/** `filter`, `skip`/`take` and `reduce((sum, x) => sum + f(x), 0)` over sequences. */
module Seqs {

  /** `s.filter(p)`. */
  function Filter<T>(s: seq<T>, p: T -> bool): (r: seq<T>)
    ensures |r| <= |s|
    ensures forall i :: 0 <= i < |r| ==> r[i] in s && p(r[i])
    ensures forall i :: 0 <= i < |s| && p(s[i]) ==> s[i] in r
  {
    if s == [] then []
    else (if p(s[0]) then [s[0]] else []) + Filter(s[1..], p)
  }

  /**
   * The positions `i .. |s| - 1` of `s` whose element passes `p`, in
   * increasing order: an independent account of what `Filter` keeps.
   */
  function Positions<T>(s: seq<T>, p: T -> bool, i: nat): (idx: seq<nat>)
    requires i <= |s|
    decreases |s| - i
  {
    if i == |s| then []
    else (if p(s[i]) then [i] else []) + Positions(s, p, i + 1)
  }

  /** Every listed position is at or after `i` and holds a passing element. */
  lemma {:induction false} PositionsPass<T>(s: seq<T>, p: T -> bool, i: nat)
    requires i <= |s|
    ensures forall k :: 0 <= k < |Positions(s, p, i)| ==>
              i <= Positions(s, p, i)[k] < |s| && p(s[Positions(s, p, i)[k]])
    decreases |s| - i
  {
    if i < |s| {
      PositionsPass(s, p, i + 1);
      var idx, jdx := Positions(s, p, i), Positions(s, p, i + 1);
      var h := if p(s[i]) then [i] else [];
      assert idx == h + jdx;
      forall k | |h| <= k < |idx|
        ensures i < idx[k] < |s| && p(s[idx[k]])
      {
        var m := k - |h|;
        assert 0 <= m < |jdx| && idx[k] == jdx[m];
        assert i + 1 <= jdx[m] < |s| && p(s[jdx[m]]);
      }
    }
  }

  /** The listed positions increase strictly. */
  lemma {:induction false} PositionsIncrease<T>(s: seq<T>, p: T -> bool, i: nat)
    requires i <= |s|
    ensures forall k, l :: 0 <= k < l < |Positions(s, p, i)| ==> Positions(s, p, i)[k] < Positions(s, p, i)[l]
    decreases |s| - i
  {
    if i < |s| {
      PositionsIncrease(s, p, i + 1);
      PositionsPass(s, p, i + 1);
      var idx, jdx := Positions(s, p, i), Positions(s, p, i + 1);
      var h := if p(s[i]) then [i] else [];
      assert idx == h + jdx;
      forall k, l | 0 <= k < l < |idx|
        ensures idx[k] < idx[l]
      {
        assert idx[l] == jdx[l - |h|];
        if k >= |h| {
          assert idx[k] == jdx[k - |h|];
        }
      }
    }
  }

  /** No passing position at or after `i` is missed. */
  lemma {:induction false} PositionsComplete<T>(s: seq<T>, p: T -> bool, i: nat)
    requires i <= |s|
    ensures forall j :: i <= j < |s| && p(s[j]) ==> j in Positions(s, p, i)
    decreases |s| - i
  {
    if i < |s| {
      PositionsComplete(s, p, i + 1);
      var idx, jdx := Positions(s, p, i), Positions(s, p, i + 1);
      var h := if p(s[i]) then [i] else [];
      assert idx == h + jdx;
      forall j | i <= j < |s| && p(s[j])
        ensures j in idx
      {
        if j == i {
          assert idx[0] == i;
        } else {
          assert i + 1 <= j < |s| && p(s[j]);
          assert j in jdx;
        }
      }
    }
  }

  /**
   * `Filter` keeps exactly the passing elements, in their order: its `k`-th
   * element is the element at the `k`-th passing position.
   */
  lemma {:induction false} FilterInOrder<T>(s: seq<T>, p: T -> bool, i: nat)
    requires i <= |s|
    ensures |Filter(s[i..], p)| == |Positions(s, p, i)|
    ensures forall k :: 0 <= k < |Filter(s[i..], p)| ==>
              Positions(s, p, i)[k] < |s| && Filter(s[i..], p)[k] == s[Positions(s, p, i)[k]]
    decreases |s| - i
  {
    if i < |s| {
      FilterInOrder(s, p, i + 1);
      var r, t := Filter(s[i..], p), Filter(s[i + 1..], p);
      var idx, jdx := Positions(s, p, i), Positions(s, p, i + 1);
      assert s[i..][0] == s[i] && s[i..][1..] == s[i + 1..];
      if p(s[i]) {
        assert r == [s[i]] + t && idx == [i] + jdx;
        forall k | 0 <= k < |r|
          ensures r[k] == s[idx[k]]
        {
          if k > 0 {
            assert r[k] == t[k - 1] && idx[k] == jdx[k - 1];
          }
        }
      } else {
        assert r == t && idx == jdx;
      }
    }
  }

  /** Filtering keeps each passing value as often as it occurs, and no other value. */
  lemma {:induction false} FilterMultiset<T>(s: seq<T>, p: T -> bool)
    ensures forall x :: multiset(Filter(s, p))[x] == if p(x) then multiset(s)[x] else 0
  {
    if s != [] {
      FilterMultiset(s[1..], p);
      assert s == [s[0]] + s[1..];
      assert multiset(s) == multiset([s[0]]) + multiset(s[1..]);
    }
  }

  /** Filtering works piecewise, so it keeps the order of what it keeps. */
  lemma {:induction false} FilterConcat<T>(s: seq<T>, t: seq<T>, p: T -> bool)
    ensures Filter(s + t, p) == Filter(s, p) + Filter(t, p)
  {
    if s != [] {
      assert (s + t)[0] == s[0];
      assert (s + t)[1..] == s[1..] + t;
      FilterConcat(s[1..], t, p);
    } else {
      assert s + t == t;
    }
  }

  /** Filtering by two tests that agree everywhere gives the same list. */
  lemma {:induction false} FilterSameTest<T>(s: seq<T>, p: T -> bool, q: T -> bool)
    requires forall x :: p(x) == q(x)
    ensures Filter(s, p) == Filter(s, q)
  {
    if s != [] {
      FilterSameTest(s[1..], p, q);
    }
  }

  /** Filtering keeps everything when every element passes. */
  lemma {:induction false} FilterAll<T>(s: seq<T>, p: T -> bool)
    requires forall i :: 0 <= i < |s| ==> p(s[i])
    ensures Filter(s, p) == s
  {
    if s != [] {
      FilterAll(s[1..], p);
    }
  }

  /** Filtering by `p` and then by `q` is filtering by their conjunction `pq`. */
  lemma {:induction false} FilterFilter<T>(s: seq<T>, p: T -> bool, q: T -> bool, pq: T -> bool)
    requires forall x :: pq(x) == (p(x) && q(x))
    ensures Filter(Filter(s, p), q) == Filter(s, pq)
  {
    if s != [] {
      FilterFilter(s[1..], p, q, pq);
      assert pq(s[0]) == (p(s[0]) && q(s[0]));
      if p(s[0]) {
        var f := Filter(s, p);
        assert f == [s[0]] + Filter(s[1..], p);
        assert f[0] == s[0] && f[1..] == Filter(s[1..], p);
        assert Filter(f, q) == (if q(s[0]) then [s[0]] else []) + Filter(Filter(s[1..], p), q);
      } else {
        assert Filter(s, p) == [] + Filter(s[1..], p) == Filter(s[1..], p);
        assert Filter(s, pq) == [] + Filter(s[1..], pq) == Filter(s[1..], pq);
      }
    }
  }

  /** `s.filter(p).length`. */
  function Count<T>(s: seq<T>, p: T -> bool): (n: nat)
    ensures n <= |s|
    ensures n == 0 <==> forall i :: 0 <= i < |s| ==> !p(s[i])
  {
    if s == [] then 0
    else
      assert forall i :: 1 <= i < |s| ==> s[i] == s[1..][i - 1];
      (if p(s[0]) then 1 else 0) + Count(s[1..], p)
  }

  /** Counting by a test and by its negation splits the sequence. */
  lemma {:induction false} CountSplit<T>(s: seq<T>, p: T -> bool)
    ensures Count(s, p) + Count(s, x => !p(x)) == |s|
  {
    if s != [] {
      CountSplit(s[1..], p);
    }
  }

  /** `count({where})` is the length of `findMany({where})`. */
  lemma {:induction false} FilterLength<T>(s: seq<T>, p: T -> bool)
    ensures |Filter(s, p)| == Count(s, p)
  {
    if s != [] {
      FilterLength(s[1..], p);
    }
  }

  lemma {:induction false} SubsetCard<T>(a: set<T>, b: set<T>)
    requires a <= b
    ensures |a| <= |b|
    decreases |b|
  {
    if a != {} {
      var x :| x in a;
      SubsetCard(a - {x}, b - {x});
    }
  }

  /** `findMany({skip: offset, take: limit})` on an ordered result. */
  function Window<T>(s: seq<T>, offset: nat, limit: nat): (r: seq<T>)
    ensures |r| <= limit
    ensures |r| == if offset >= |s| then 0 else if offset + limit <= |s| then limit else |s| - offset
    ensures forall i :: 0 <= i < |r| ==> r[i] == s[offset + i]
  {
    var lo := if offset < |s| then offset else |s|;
    var hi := if offset + limit < |s| then offset + limit else |s|;
    s[lo..hi]
  }

  /** `s.reduce((sum, x) => sum + f(x), 0)`. */
  function Sum<T>(s: seq<T>, f: T -> int): int
  {
    if s == [] then 0 else f(s[0]) + Sum(s[1..], f)
  }

  lemma {:induction false} SumConcat<T>(s: seq<T>, t: seq<T>, f: T -> int)
    ensures Sum(s + t, f) == Sum(s, f) + Sum(t, f)
  {
    if s != [] {
      assert (s + t)[0] == s[0];
      assert (s + t)[1..] == s[1..] + t;
      SumConcat(s[1..], t, f);
    } else {
      assert s + t == t;
    }
  }

  /** A sum of non-negative terms is non-negative. */
  lemma {:induction false} SumNonNegative<T>(s: seq<T>, f: T -> int)
    requires forall i :: 0 <= i < |s| ==> f(s[i]) >= 0
    ensures Sum(s, f) >= 0
  {
    if s != [] {
      SumNonNegative(s[1..], f);
    }
  }
}
