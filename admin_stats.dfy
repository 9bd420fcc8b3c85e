/**
 * `GET /api/admin/stats`: revenue totals for a reporting range and the
 * per-bucket revenue series for the dashboard chart.
 *
 * The calendar values the route reads from `Date` (the local midnight of
 * today, the instant one month ago and one year ago) are inputs; days are
 * `DAY` milliseconds long, as in a time zone without daylight saving.
 */
module AdminStatsRoute {
  import opened Wrappers
  import opened Ledger
  import Seqs

  datatype Clock = Clock(now: int, todayStart: int, monthAgo: int, yearAgo: int)

  /** Today's midnight is within the last day, and a year ago precedes a month ago, which precedes today. */
  predicate WellFormed(c: Clock)
  {
    c.todayStart <= c.now < c.todayStart + DAY && c.yearAgo <= c.monthAgo <= c.todayStart
  }

  /** The `switch (range)`: an unknown range leaves the start date at now. */
  function StartDate(range: string, c: Clock): (s: int)
    ensures range == "week" ==> s == c.now - 7 * DAY
    ensures range == "month" ==> s == c.monthAgo
    ensures range == "year" ==> s == c.yearAgo
    ensures range !in {"week", "month", "year"} ==> s == c.now
  {
    if range == "week" then c.now - 7 * DAY
    else if range == "month" then c.monthAgo
    else if range == "year" then c.yearAgo
    else c.now
  }

  /** `filter(t => t.type === 'PURCHASE' && p(t)).reduce((sum, t) => sum + t.amount, 0)`. */
  function PurchaseSum(rows: seq<Entry>, p: Entry -> bool): int
  {
    if rows == [] then 0
    else (if rows[0].txType == Purchase && p(rows[0]) then rows[0].amount else 0) + PurchaseSum(rows[1..], p)
  }

  /** Summing over two disjoint windows is summing over their union. */
  lemma {:induction false} PurchaseSumSplit(rows: seq<Entry>, p: Entry -> bool, q: Entry -> bool, pq: Entry -> bool)
    requires forall e :: pq(e) == (p(e) || q(e))
    requires forall e :: !(p(e) && q(e))
    ensures PurchaseSum(rows, pq) == PurchaseSum(rows, p) + PurchaseSum(rows, q)
  {
    if rows != [] {
      assert pq(rows[0]) == (p(rows[0]) || q(rows[0]));
      assert !(p(rows[0]) && q(rows[0]));
      PurchaseSumSplit(rows[1..], p, q, pq);
    }
  }

  /** Summing over a pre-filtered list is summing over the conjunction of the two tests. */
  lemma {:induction false} PurchaseSumOfFilter(rows: seq<Entry>, f: Entry -> bool, p: Entry -> bool, fp: Entry -> bool)
    requires forall e :: fp(e) == (f(e) && p(e))
    ensures PurchaseSum(Seqs.Filter(rows, f), p) == PurchaseSum(rows, fp)
  {
    if rows != [] {
      assert fp(rows[0]) == (f(rows[0]) && p(rows[0]));
      PurchaseSumOfFilter(rows[1..], f, p, fp);
      var rest := Seqs.Filter(rows[1..], f);
      if f(rows[0]) {
        var kept := Seqs.Filter(rows, f);
        assert kept == [rows[0]] + rest;
        assert kept[0] == rows[0] && kept[1..] == rest;
      } else {
        assert Seqs.Filter(rows, f) == [] + rest == rest;
      }
    }
  }

  /** The `transactions` query: every row created at or after the start date. */
  function Since(rows: seq<Entry>, start: int): seq<Entry>
  {
    Seqs.Filter(rows, (e: Entry) => e.createdAt >= start)
  }

  /** Bucket `i` starts `i` spans before today's midnight. */
  function BucketStart(c: Clock, span: int, i: nat): int
  {
    c.todayStart - i * span
  }

  /** The revenue of bucket `i`: PURCHASE rows created in `[start, start + span)`. */
  function BucketRevenue(rows: seq<Entry>, c: Clock, span: int, i: nat): int
  {
    PurchaseSum(rows, (e: Entry) => BucketStart(c, span, i) <= e.createdAt < BucketStart(c, span, i) + span)
  }

  /** Buckets `0 .. n-1` together. */
  function BucketsTotal(rows: seq<Entry>, c: Clock, span: int, n: nat): int
  {
    if n == 0 then 0 else BucketsTotal(rows, c, span, n - 1) + BucketRevenue(rows, c, span, n - 1)
  }

  /**
   * The buckets are adjacent and do not overlap: together they hold exactly
   * the revenue from the oldest bucket's start to the end of today's bucket.
   */
  lemma {:induction false} BucketsCoverSpan(rows: seq<Entry>, c: Clock, span: int, n: nat)
    requires span >= 0 && n >= 1
    ensures BucketsTotal(rows, c, span, n)
            == PurchaseSum(rows, (e: Entry) => BucketStart(c, span, n - 1) <= e.createdAt < c.todayStart + span)
  {
    if n > 1 {
      BucketsCoverSpan(rows, c, span, n - 1);
      var lo := BucketStart(c, span, n - 1);
      var mid := BucketStart(c, span, n - 2);
      var hi := c.todayStart + span;
      assert lo + span == mid;
      PurchaseSumSplit(rows, (e: Entry) => lo <= e.createdAt < lo + span, (e: Entry) => mid <= e.createdAt < hi,
                       (e: Entry) => lo <= e.createdAt < hi);
    }
  }

  /** `days` and `dayStep` for a range. */
  function Days(range: string): nat
  {
    if range == "week" then 7 else if range == "month" then 30 else 365
  }

  function DayStep(range: string): nat
  {
    if range == "year" then 30 else 1
  }

  /**
   * The number of iterations of `for (i = 0; i < Math.min(days / dayStep, 12); i++)`,
   * where the division is real: `i` runs while `i * dayStep < days` and `i < 12`.
   */
  function BucketCount(range: string): (n: nat)
    ensures forall i: nat :: i < n <==> i * DayStep(range) < Days(range) && i < 12
    ensures n == if range == "week" then 7 else 12
  {
    if range == "week" then 7 else 12
  }

  datatype RevenuePoint = RevenuePoint(date: string, amount: int)

  /** The point of the bucket `j` spans back from now. */
  function GrowthPoint(tx: seq<Entry>, c: Clock, span: int, formatDate: int -> string, j: nat): RevenuePoint
  {
    RevenuePoint(formatDate(c.now - j * span), BucketRevenue(tx, c, span, j))
  }

  datatype Stats = Stats(totalRevenue: int, todayRevenue: int, monthlyRevenue: int, revenueGrowth: seq<RevenuePoint>)

  /**
   * The handler. `formatDate` renders the calendar date of an instant, as
   * `toISOString().split('T')[0]` does.
   */
  method GetStats(db: Db, token: Option<Principal>, rangeParam: Option<string>, c: Clock, formatDate: int -> string)
    returns (r: Reply<Stats>)
    ensures r == Err(401, "No admin token") <==> token.None?
    ensures r == Err(403, "Not an admin user") <==>
              token.Some? && (token.value.role != "ADMIN" || token.value.tokenType != "admin")
    ensures r.Ok? <==> token.Some? && token.value.role == "ADMIN" && token.value.tokenType == "admin"
    ensures r.Ok? ==>
              var range := OrElse(rangeParam, Some("month")).value;
              var tx := Since(db.rows, StartDate(range, c));
              var span := DayStep(range) * DAY;
              var n := BucketCount(range);
              var g := r.value.revenueGrowth;
              && r.value.totalRevenue == PurchaseSum(db.rows, (e: Entry) => true)
              && r.value.todayRevenue == PurchaseSum(tx, (e: Entry) => e.createdAt >= c.todayStart)
              && r.value.monthlyRevenue == PurchaseSum(tx, (e: Entry) => true)
              && |g| == n
              && forall k :: 0 <= k < n ==>
                   g[k] == RevenuePoint(formatDate(c.now - (n - 1 - k) * span), BucketRevenue(tx, c, span, n - 1 - k))
  {
    if token.None? {
      return Err(401, "No admin token");
    }
    if token.value.role != "ADMIN" || token.value.tokenType != "admin" {
      return Err(403, "Not an admin user");
    }
    var range := OrElse(rangeParam, Some("month")).value;
    var tx := Since(db.rows, StartDate(range, c));
    var span := DayStep(range) * DAY;
    var n := BucketCount(range);
    var growth: seq<RevenuePoint> := [];
    for i := 0 to n
      invariant |growth| == i
      invariant forall k :: 0 <= k < i ==> growth[k] == GrowthPoint(tx, c, span, formatDate, i - 1 - k)
    {
      var point := RevenuePoint(formatDate(c.now - i * span), BucketRevenue(tx, c, span, i));
      assert point == GrowthPoint(tx, c, span, formatDate, i);
      growth := [point] + growth;
    }
    return Ok(Stats(PurchaseSum(db.rows, (e: Entry) => true),
                    PurchaseSum(tx, (e: Entry) => e.createdAt >= c.todayStart),
                    PurchaseSum(tx, (e: Entry) => true),
                    growth));
  }

  /**
   * For the week, month and year ranges the start date is not after today's
   * midnight, so `todayRevenue` is the revenue since midnight and
   * `monthlyRevenue` the revenue since the start date.
   */
  lemma RevenueTotalsForKnownRange(rows: seq<Entry>, range: string, c: Clock)
    requires WellFormed(c) && range in {"week", "month", "year"}
    ensures PurchaseSum(Since(rows, StartDate(range, c)), (e: Entry) => e.createdAt >= c.todayStart)
            == PurchaseSum(rows, (e: Entry) => e.createdAt >= c.todayStart)
    ensures PurchaseSum(Since(rows, StartDate(range, c)), (e: Entry) => true)
            == PurchaseSum(rows, (e: Entry) => e.createdAt >= StartDate(range, c))
  {
    var s := StartDate(range, c);
    assert s <= c.todayStart;
    PurchaseSumOfFilter(rows, (e: Entry) => e.createdAt >= s, (e: Entry) => e.createdAt >= c.todayStart, (e: Entry) => e.createdAt >= c.todayStart);
    PurchaseSumOfFilter(rows, (e: Entry) => e.createdAt >= s, (e: Entry) => true, (e: Entry) => e.createdAt >= s);
  }

  /** For an unknown range the start date is now, so only rows from now on are counted for today. */
  lemma UnknownRangeCountsFromNow(rows: seq<Entry>, range: string, c: Clock)
    requires WellFormed(c) && range !in {"week", "month", "year"}
    ensures PurchaseSum(Since(rows, StartDate(range, c)), (e: Entry) => e.createdAt >= c.todayStart)
            == PurchaseSum(rows, (e: Entry) => e.createdAt >= c.now)
  {
    PurchaseSumOfFilter(rows, (e: Entry) => e.createdAt >= c.now, (e: Entry) => e.createdAt >= c.todayStart, (e: Entry) => e.createdAt >= c.now);
  }
}
