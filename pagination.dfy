/**
 * The client-side pagination the two admin pages share: the slice of the
 * sorted list a page shows, the row of at most five page buttons, and the
 * previous / next buttons.
 */
module Pagination {

  /** `Array.prototype.slice(start, end)`: a negative bound counts from the end, and bounds are clamped. */
  function JsSlice<T>(s: seq<T>, start: int, end: int): (r: seq<T>)
    ensures var lo := if start < 0 then (if |s| + start < 0 then 0 else |s| + start) else (if start < |s| then start else |s|);
            var hi := if end < 0 then (if |s| + end < 0 then 0 else |s| + end) else (if end < |s| then end else |s|);
            && (lo < hi ==> |r| == hi - lo && forall i :: 0 <= i < |r| ==> r[i] == s[lo + i])
            && (lo >= hi ==> r == [])
  {
    var lo := Clamp(start, |s|);
    var hi := Clamp(end, |s|);
    if lo < hi then s[lo..hi] else []
  }

  /** A slice bound resolved against a length. */
  function Clamp(k: int, len: nat): (b: nat)
    ensures b <= len
    ensures k < 0 ==> b == (if len + k < 0 then 0 else len + k)
    ensures k >= 0 ==> b == (if k < len then k else len)
  {
    if k < 0 then (if len + k < 0 then 0 else len + k) else if k < len then k else len
  }

  /** The rows page `currentPage` shows: `slice((currentPage - 1) * perPage, currentPage * perPage)`. */
  function PageSlice<T>(s: seq<T>, currentPage: int, perPage: nat): (r: seq<T>)
    requires currentPage >= 1
    ensures var start := PageStart(currentPage, perPage);
            && |r| == (if start >= |s| then 0 else if start + perPage <= |s| then perPage else |s| - start)
            && |r| <= perPage
            && forall i :: 0 <= i < |r| ==> start + i < |s| && r[i] == s[start + i]
  {
    var start := PageStart(currentPage, perPage);
    JsSlice(s, start, start + perPage)
  }

  /** The index of the first row of page `currentPage`: one page before the end of page `currentPage`. */
  function PageStart(currentPage: int, perPage: nat): (n: nat)
    requires currentPage >= 1
    ensures n + perPage == currentPage * perPage
  {
    (currentPage - 1) * perPage
  }

  /**
   * Every row is on exactly one page: row `i` is entry `i % perPage` of
   * page `i / perPage + 1`.
   */
  lemma PageSliceCovers<T>(s: seq<T>, perPage: nat, i: nat)
    requires perPage > 0 && i < |s|
    ensures var r := PageSlice(s, i / perPage + 1, perPage);
            i % perPage < |r| && r[i % perPage] == s[i]
  {
    var q := i / perPage;
    var start := PageStart(q + 1, perPage);
    assert i == q * perPage + i % perPage;
    assert (q + 1) * perPage == q * perPage + perPage;
    assert start == q * perPage;
  }

  /** The page buttons: `Array.from({length: Math.min(5, totalPages)}, ...)`. */
  function PageWindow(currentPage: int, totalPages: nat): (w: seq<int>)
  {
    var n := if totalPages < 5 then totalPages else 5;
    var first := if totalPages <= 5 then 1
                 else if currentPage <= 3 then 1
                 else if currentPage >= totalPages - 2 then totalPages - 4
                 else currentPage - 2;
    seq(n, i => first + i)
  }

  /**
   * The window holds `min(5, totalPages)` consecutive page numbers, all
   * within `1 .. totalPages`, whatever the current page; and it shows the
   * current page whenever that page exists.
   */
  lemma PageWindowShape(currentPage: int, totalPages: nat)
    ensures var w := PageWindow(currentPage, totalPages);
            && |w| == (if totalPages < 5 then totalPages else 5)
            && (forall i :: 0 <= i < |w| ==> 1 <= w[i] <= totalPages)
            && (forall i :: 0 < i < |w| ==> w[i] == w[i - 1] + 1)
            && (1 <= currentPage <= totalPages ==> currentPage in w)
  {
    var w := PageWindow(currentPage, totalPages);
    if 1 <= currentPage <= totalPages {
      var k := currentPage - w[0];
      assert 0 <= k < |w| && w[k] == currentPage;
    }
  }

  /** The previous button: `Math.max(1, currentPage - 1)`. */
  function PreviousPage(currentPage: int): (p: int)
    ensures p >= 1
    ensures currentPage > 1 ==> p == currentPage - 1
    ensures currentPage <= 1 ==> p == 1
  {
    if currentPage - 1 > 1 then currentPage - 1 else 1
  }

  /** The next button as written: `Math.min(totalPages, currentPage + 1)`. */
  function NextPageAsWritten(currentPage: int, totalPages: nat): int
  {
    if totalPages < currentPage + 1 then totalPages else currentPage + 1
  }

  /**
   * When the filter leaves no rows there are no pages, and the next button
   * (enabled, since the current page 1 differs from 0) moves to page 0;
   * with rows back in the list, page 0 shows none of them and no button
   * of the window is the current one.
   */
  lemma NextPageReachesZero(rows: seq<int>)
    requires |rows| >= 1
    ensures NextPageAsWritten(1, 0) == 0
    ensures JsSlice(rows, (0 - 1) * 10, (0 - 1) * 10 + 10) == []
    ensures 0 !in PageWindow(0, (|rows| + 9) / 10)
  {
    PageWindowShape(0, (|rows| + 9) / 10);
  }

  /**
   * The next button as evidently intended, `Math.max(1, Math.min(totalPages, currentPage + 1))`:
   * forward by one, never past the last page and never below page 1.
   */
  function NextPage(currentPage: int, totalPages: nat): (p: int)
    requires currentPage >= 1
    ensures p >= 1
    ensures totalPages >= 1 ==> p <= totalPages
    ensures currentPage < totalPages ==> p == currentPage + 1
    ensures 1 <= totalPages <= currentPage ==> p == totalPages
    ensures totalPages == 0 ==> p == 1
  {
    var q := NextPageAsWritten(currentPage, totalPages);
    if q < 1 then 1 else q
  }
}
