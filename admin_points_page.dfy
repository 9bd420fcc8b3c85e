/**
 * The administrator's points page: client-side state holding a user list
 * and a transaction history, which the adjustment handlers replace with new
 * lists. Each handler is a transition from one page state to the next; the
 * lists on screen (filtered, sorted, one page of ten) are functions of the
 * state.
 */
module AdminPointsPage {
  import opened Wrappers
  import opened Numbers
  import Text
  import Seqs
  import Sorting
  import Pagination
  import DbQueries

  const PerPage: nat := 10

  datatype Status = Active | Suspended

  /** A row of the user table; `lastTransaction` is the instant the page's date string denotes. */
  datatype UserPoints = UserPoints(
    id: string,
    name: string,
    email: string,
    balance: int,
    totalPurchased: int,
    totalUsed: int,
    purchaseCount: int,
    usageCount: int,
    status: Status,
    lastTransaction: int)

  datatype Kind = Purchase | Usage | Adjustment

  datatype Transaction = Transaction(
    id: string,
    userId: string,
    userName: string,
    date: string,
    kind: Kind,
    amount: int,
    description: string,
    adminNote: Option<string>,
    balanceAfter: int)

  datatype SortKey = ByBalance | ByTotalPurchased | ByTotalUsed | ByLastTransaction

  /** The page's state: the two lists, the filter and sort controls, the current page and the two forms. */
  datatype Page = Page(
    users: seq<UserPoints>,
    transactions: seq<Transaction>,
    searchQuery: string,
    statusFilter: Option<Status>,
    sortBy: SortKey,
    descending: bool,
    currentPage: int,
    selected: Option<UserPoints>,
    showAdjustModal: bool,
    adjustmentAmount: string,
    adjustmentReason: string,
    showBulkAdjustModal: bool,
    bulkAdjustmentAmount: string,
    bulkAdjustmentReason: string,
    dateFilter: string,
    typeFilter: Option<Kind>)

  /** The search: name or e-mail contains the query ignoring case, or the id contains it as typed. */
  predicate MatchesSearch(u: UserPoints, query: string)
  {
    || Text.Contains(Text.ToLower(u.name), Text.ToLower(query))
    || Text.Contains(Text.ToLower(u.email), Text.ToLower(query))
    || Text.Contains(u.id, query)
  }

  /** The user filter: the search and the status control ('all' is `None`). */
  predicate Shown(u: UserPoints, query: string, status: Option<Status>)
  {
    MatchesSearch(u, query) && (status.None? || u.status == status.value)
  }

  function SortValue(key: SortKey): UserPoints -> int
  {
    match key
    case ByBalance => (u: UserPoints) => u.balance
    case ByTotalPurchased => (u: UserPoints) => u.totalPurchased
    case ByTotalUsed => (u: UserPoints) => u.totalUsed
    case ByLastTransaction => (u: UserPoints) => u.lastTransaction
  }

  /** `filteredUsers`: the users the filter keeps, ordered by the sort control. */
  function FilteredUsers(p: Page): (r: seq<UserPoints>)
    ensures forall u :: u in r <==> u in p.users && Shown(u, p.searchQuery, p.statusFilter)
    ensures Sorting.SortedBy(r, SortValue(p.sortBy), p.descending)
  {
    var kept := Seqs.Filter(p.users, (u: UserPoints) => Shown(u, p.searchQuery, p.statusFilter));
    Sorting.SortByMembers(kept, SortValue(p.sortBy), p.descending);
    Sorting.SortBy(kept, SortValue(p.sortBy), p.descending)
  }

  /** The filtered list is a rearrangement of the matching users, each kept as often as it occurs. */
  lemma FilteredUsersPermutation(p: Page)
    ensures multiset(FilteredUsers(p)) == multiset(Seqs.Filter(p.users, (u: UserPoints) => Shown(u, p.searchQuery, p.statusFilter)))
  {
  }

  function TotalPages(p: Page): nat
  {
    DbQueries.TotalPages(|FilteredUsers(p)|, PerPage)
  }

  /** `paginatedUsers`: the ten rows of the current page. */
  function PaginatedUsers(p: Page): (r: seq<UserPoints>)
    requires p.currentPage >= 1
    ensures |r| <= PerPage
    ensures var start, n := Pagination.PageStart(p.currentPage, PerPage), |FilteredUsers(p)|;
            |r| == (if start >= n then 0 else if start + PerPage <= n then PerPage else n - start)
    ensures forall i :: 0 <= i < |r| ==>
              var k := Pagination.PageStart(p.currentPage, PerPage) + i; k < |FilteredUsers(p)| && r[i] == FilteredUsers(p)[k]
  {
    var shown := FilteredUsers(p);
    var start := Pagination.PageStart(p.currentPage, PerPage);
    var r := Pagination.PageSlice(shown, p.currentPage, PerPage);
    assert forall i :: 0 <= i < |r| ==> start + i < |shown| && r[i] == shown[start + i];
    r
  }

  /** Every listed user is on exactly one page: user `i` is row `i % PerPage` of page `i / PerPage + 1`. */
  lemma EveryUserOnItsPage(p: Page, i: nat)
    requires i < |FilteredUsers(p)|
    ensures i % PerPage < |PaginatedUsers(p.(currentPage := i / PerPage + 1))|
    ensures PaginatedUsers(p.(currentPage := i / PerPage + 1))[i % PerPage] == FilteredUsers(p)[i]
  {
    var q := p.(currentPage := i / PerPage + 1);
    assert FilteredUsers(q) == FilteredUsers(p);
    Pagination.PageSliceCovers(FilteredUsers(p), PerPage, i);
  }

  /** `filteredTransactions`: the date prefix when one is typed, then the type control. */
  function FilteredTransactions(p: Page): (r: seq<Transaction>)
    ensures forall t :: t in r <==>
              && t in p.transactions
              && (p.dateFilter == "" || Text.StartsWith(t.date, p.dateFilter))
              && (p.typeFilter.None? || t.kind == p.typeFilter.value)
  {
    var byDate := if p.dateFilter != "" then Seqs.Filter(p.transactions, OnDate(p.dateFilter)) else p.transactions;
    if p.typeFilter.Some? then Seqs.Filter(byDate, OfKind(p.typeFilter.value)) else byDate
  }

  function OnDate(prefix: string): Transaction -> bool
  {
    (t: Transaction) => Text.StartsWith(t.date, prefix)
  }

  function OfKind(kind: Kind): Transaction -> bool
  {
    (t: Transaction) => t.kind == kind
  }

  /** Both controls of the history list at once. */
  function TransactionShown(p: Page): Transaction -> bool
  {
    (t: Transaction) => (p.dateFilter == "" || Text.StartsWith(t.date, p.dateFilter))
                        && (p.typeFilter.None? || t.kind == p.typeFilter.value)
  }

  /**
   * The history list keeps the transactions passing both controls in their
   * order: entry `k` is the transaction at the `k`-th passing position.
   */
  lemma FilteredTransactionsInOrder(p: Page)
    ensures |FilteredTransactions(p)| == |Seqs.Positions(p.transactions, TransactionShown(p), 0)|
    ensures forall k :: 0 <= k < |FilteredTransactions(p)| ==>
              Seqs.Positions(p.transactions, TransactionShown(p), 0)[k] < |p.transactions|
              && FilteredTransactions(p)[k] == p.transactions[Seqs.Positions(p.transactions, TransactionShown(p), 0)[k]]
  {
    var s, both := p.transactions, TransactionShown(p);
    if p.dateFilter != "" && p.typeFilter.Some? {
      Seqs.FilterFilter(s, OnDate(p.dateFilter), OfKind(p.typeFilter.value), both);
    } else if p.dateFilter != "" {
      Seqs.FilterSameTest(s, OnDate(p.dateFilter), both);
    } else if p.typeFilter.Some? {
      Seqs.FilterSameTest(s, OfKind(p.typeFilter.value), both);
    } else {
      Seqs.FilterAll(s, both);
    }
    assert FilteredTransactions(p) == Seqs.Filter(s, both);
    Seqs.FilterInOrder(s, both, 0);
    assert s[0..] == s;
  }

  /** `parseInt(input.replace(/[+\-]/g, ''))`, negated when the input contains a '-' anywhere. */
  function ParseAmount(input: string): (a: int)
    requires Text.ParsesAsDecimal(Text.RemoveSigns(input))
    ensures var n: int := Text.ParseUnsigned(Text.RemoveSigns(input)); a == if '-' in input then -n else n
  {
    var n: int := Text.ParseUnsigned(Text.RemoveSigns(input));
    ContainsChar(input, '-');
    if Text.Contains(input, "-") then -n else n
  }

  /** `includes` of a one-character string is membership. */
  lemma {:induction false} ContainsChar(s: string, c: char)
    ensures Text.Contains(s, [c]) <==> c in s
    decreases |s|
  {
    if s != [] {
      ContainsChar(s[1..], c);
      assert s == [s[0]] + s[1..];
    }
  }

  lemma {:induction false} RemoveSignsOfDigits(s: string)
    requires Text.AllDigits(s)
    ensures Text.RemoveSigns(s) == s
  {
    if s != [] {
      RemoveSignsOfDigits(s[1..]);
      assert s == [s[0]] + s[1..];
    }
  }

  lemma {:induction false} RemoveSignsTrailingMinus(s: string)
    ensures Text.RemoveSigns(s + "-") == Text.RemoveSigns(s)
  {
    if s != [] {
      assert (s + "-")[1..] == s[1..] + "-";
      RemoveSignsTrailingMinus(s[1..]);
    }
  }

  /**
   * A printed number reads back as itself, with or without a '+'; a '-'
   * negates it wherever it stands, after the digits as well as before them.
   */
  lemma ParseAmountOfSigned(n: nat)
    ensures Text.ParsesAsDecimal(Text.NatToString(n)) && Text.RemoveSigns(Text.NatToString(n)) == Text.NatToString(n)
    ensures Text.RemoveSigns(Text.NatToString(n) + "-") == Text.NatToString(n)
    ensures ParseAmount(Text.NatToString(n)) == n
    ensures ParseAmount("+" + Text.NatToString(n)) == n
    ensures ParseAmount("-" + Text.NatToString(n)) == -(n as int)
    ensures ParseAmount(Text.NatToString(n) + "-") == -(n as int)
  {
    SignsOfNumber(n);
    SignedReadings(Text.NatToString(n), n);
  }

  /** The four spellings of a sign-free number `s` that reads as `n`. */
  lemma SignedReadings(s: string, n: nat)
    requires Text.RemoveSigns(s) == s && Text.RemoveSigns(s + "-") == s && '-' !in s
    requires Text.ParsesAsDecimal(s) && Text.ParseUnsigned(s) == n
    ensures ParseAmount(s) == n
    ensures ParseAmount("+" + s) == n
    ensures ParseAmount("-" + s) == -(n as int)
    ensures ParseAmount(s + "-") == -(n as int)
  {
    var plus, minus, trailing := "+" + s, "-" + s, s + "-";
    assert minus[1..] == s && plus[1..] == s;
    assert '-' in minus by { assert minus[0] == '-'; }
    assert '-' in trailing by { assert trailing[|s|] == '-'; }
    assert '-' !in plus by { assert forall i :: 1 <= i < |plus| ==> plus[i] == s[i - 1]; }
    assert Text.RemoveSigns(plus) == s && Text.RemoveSigns(minus) == s;
  }

  /** A printed number has no sign characters, and a trailing '-' is dropped with the others. */
  lemma SignsOfNumber(n: nat)
    ensures '-' !in Text.NatToString(n)
    ensures Text.RemoveSigns(Text.NatToString(n)) == Text.NatToString(n)
    ensures Text.RemoveSigns(Text.NatToString(n) + "-") == Text.NatToString(n)
    ensures Text.ParsesAsDecimal(Text.NatToString(n)) && Text.ParseUnsigned(Text.NatToString(n)) == n
  {
    var s := Text.NatToString(n);
    RemoveSignsOfDigits(s);
    RemoveSignsTrailingMinus(s);
    Text.ParseUnsignedOfNatToString(n);
    assert forall i :: 0 <= i < |s| ==> Text.IsDigit(s[i]) && s[i] != '-';
  }

  /** The per-user update both adjustments apply: the balance clamped at 0, and the activity time. */
  function Adjusted(u: UserPoints, amount: int, now: int): (v: UserPoints)
    ensures v.balance >= 0 && v.balance >= u.balance + amount
    ensures u.balance + amount >= 0 ==> v.balance == u.balance + amount
    ensures u.balance + amount < 0 ==> v.balance == 0
    ensures v.lastTransaction == now
    ensures v.(balance := u.balance, lastTransaction := u.lastTransaction) == u
  {
    u.(balance := Max0(u.balance + amount), lastTransaction := now)
  }

  function AdjustDescription(reason: string): (d: string)
    ensures |d| == 12 + |reason| && d[..12] == "管理者による残高調整: " && d[12..] == reason
  {
    "管理者による残高調整: " + reason
  }

  function BulkDescription(reason: string): (d: string)
    ensures |d| == 6 + |reason| && d[..6] == "一括調整: " && d[6..] == reason
  {
    "一括調整: " + reason
  }

  /** Opening the adjustment form for a row of the table. */
  function OpenAdjust(p: Page, u: UserPoints): (r: Page)
    ensures r.selected == Some(u) && r.showAdjustModal
    ensures r.(selected := p.selected, showAdjustModal := p.showAdjustModal) == p
  {
    p.(selected := Some(u), showAdjustModal := true)
  }

  predicate AdjustReady(p: Page)
  {
    p.selected.Some? && p.adjustmentAmount != "" && p.adjustmentReason != ""
  }

  /**
   * `handleAdjustBalance`. `now` is `Date.now()` (the row id and the
   * activity time) and `stamp` the rendered date of the new row.
   */
  function AdjustBalance(p: Page, now: nat, stamp: string): (r: Page)
    requires AdjustReady(p) ==> Text.ParsesAsDecimal(Text.RemoveSigns(p.adjustmentAmount))
    ensures !AdjustReady(p) ==> r == p
    ensures AdjustReady(p) ==>
              var sel := p.selected.value;
              var a := ParseAmount(p.adjustmentAmount);
              && |r.users| == |p.users|
              && (forall i :: 0 <= i < |p.users| ==>
                    r.users[i] == if p.users[i].id == sel.id then Adjusted(p.users[i], a, now) else p.users[i])
              && |r.transactions| == |p.transactions| + 1
              && r.transactions[1..] == p.transactions
              && r.transactions[0] == Transaction(Text.NatToString(now), sel.id, sel.name, stamp, Adjustment, a,
                                                  AdjustDescription(p.adjustmentReason), Some(p.adjustmentReason),
                                                  Max0(sel.balance + a))
              && r == p.(users := r.users, transactions := r.transactions, selected := None,
                         showAdjustModal := false, adjustmentAmount := "", adjustmentReason := "")
  {
    if !AdjustReady(p) then p
    else
      var sel := p.selected.value;
      var a := ParseAmount(p.adjustmentAmount);
      var users := AdjustUsers(p.users, sel.id, a, now);
      var row := Transaction(Text.NatToString(now), sel.id, sel.name, stamp, Adjustment, a,
                             AdjustDescription(p.adjustmentReason), Some(p.adjustmentReason), Max0(sel.balance + a));
      p.(users := users, transactions := [row] + p.transactions, selected := None,
         showAdjustModal := false, adjustmentAmount := "", adjustmentReason := "")
  }

  /** No two rows of the user list share an id. */
  predicate UniqueIds(users: seq<UserPoints>)
  {
    forall i, j :: 0 <= i < |users| && 0 <= j < |users| && users[i].id == users[j].id ==> i == j
  }

  predicate NonNegative(users: seq<UserPoints>)
  {
    forall i :: 0 <= i < |users| ==> users[i].balance >= 0
  }

  /**
   * The adjustment changes the selected user only, keeps balances
   * non-negative, and records the unclamped amount beside the clamped
   * balance; when the form's snapshot is the user's current row, the
   * recorded balance is the user's new balance.
   */
  lemma AdjustBalanceEffect(p: Page, now: nat, stamp: string, k: nat)
    requires AdjustReady(p) && Text.ParsesAsDecimal(Text.RemoveSigns(p.adjustmentAmount))
    requires NonNegative(p.users)
    requires UniqueIds(p.users) && k < |p.users| && p.users[k] == p.selected.value
    ensures var r := AdjustBalance(p, now, stamp);
            && NonNegative(r.users)
            && (forall i :: 0 <= i < |p.users| && i != k ==> r.users[i] == p.users[i])
            && r.users[k].balance == r.transactions[0].balanceAfter
            && r.transactions[0].amount == ParseAmount(p.adjustmentAmount)
            && (p.users[k].balance + r.transactions[0].amount < 0 ==>
                  r.transactions[0].balanceAfter == 0 != p.users[k].balance + r.transactions[0].amount)
  {
    var sel := p.selected.value;
    var a := ParseAmount(p.adjustmentAmount);
    var r := AdjustBalance(p, now, stamp);
    assert r.users == AdjustUsers(p.users, sel.id, a, now);
    AdjustOne(p.users, sel.id, a, now, k);
  }

  /** The `users.map` of the adjustment: the user with the id adjusted, everyone else kept. */
  function AdjustUsers(users: seq<UserPoints>, id: string, a: int, now: nat): (r: seq<UserPoints>)
    ensures |r| == |users|
    ensures forall i :: 0 <= i < |users| ==> r[i] == if users[i].id == id then Adjusted(users[i], a, now) else users[i]
  {
    seq(|users|, i requires 0 <= i < |users| => if users[i].id == id then Adjusted(users[i], a, now) else users[i])
  }

  /** With unique ids, adjusting the user at `k` changes row `k` only and keeps balances non-negative. */
  lemma AdjustOne(users: seq<UserPoints>, id: string, a: int, now: nat, k: nat)
    requires NonNegative(users) && UniqueIds(users) && k < |users| && users[k].id == id
    ensures var r := AdjustUsers(users, id, a, now);
            && NonNegative(r)
            && (forall i :: 0 <= i < |users| && i != k ==> r[i] == users[i])
            && r[k] == Adjusted(users[k], a, now)
  {
    var r := AdjustUsers(users, id, a, now);
    forall i | 0 <= i < |users| && i != k ensures r[i] == users[i] {
      assert users[i].id != id;
    }
    forall i | 0 <= i < |r| ensures r[i].balance >= 0 {
      assert users[i].balance >= 0;
    }
  }

  predicate BulkReady(p: Page)
  {
    p.bulkAdjustmentAmount != "" && p.bulkAdjustmentReason != ""
  }

  /** `targetUsers`: the active users among the filtered ones, in display order. */
  function BulkTargets(p: Page): (t: seq<UserPoints>)
    ensures forall u :: u in t <==> u in p.users && Shown(u, p.searchQuery, p.statusFilter) && u.status == Active
  {
    Seqs.Filter(FilteredUsers(p), (u: UserPoints) => u.status == Active)
  }

  predicate HasId(us: seq<UserPoints>, id: string)
  {
    exists j :: 0 <= j < |us| && us[j].id == id
  }

  function BulkRow(u: UserPoints, amount: int, now: nat, stamp: string, reason: string): Transaction
  {
    Transaction(Text.NatToString(now) + "-" + u.id, u.id, u.name, stamp, Adjustment, amount,
                BulkDescription(reason), Some(reason), Max0(u.balance + amount))
  }

  /**
   * `handleBulkAdjust`; `confirmed` is the administrator's answer to the
   * confirmation dialog.
   */
  function BulkAdjust(p: Page, confirmed: bool, now: nat, stamp: string): (r: Page)
    requires BulkReady(p) ==> Text.ParsesAsDecimal(Text.RemoveSigns(p.bulkAdjustmentAmount))
    ensures !BulkReady(p) || !confirmed ==> r == p
    ensures BulkReady(p) && confirmed ==>
              var a := ParseAmount(p.bulkAdjustmentAmount);
              var targets := BulkTargets(p);
              && |r.users| == |p.users|
              && (forall i :: 0 <= i < |p.users| ==>
                    r.users[i] == if HasId(targets, p.users[i].id) then Adjusted(p.users[i], a, now) else p.users[i])
              && r == p.(users := r.users, transactions := r.transactions, showBulkAdjustModal := false,
                         bulkAdjustmentAmount := "", bulkAdjustmentReason := "")
  {
    if !BulkReady(p) || !confirmed then p
    else
      var a := ParseAmount(p.bulkAdjustmentAmount);
      var targets := BulkTargets(p);
      var rows := BulkRows(targets, a, now, stamp, p.bulkAdjustmentReason);
      p.(users := BulkUsers(p.users, targets, a, now), transactions := rows + p.transactions, showBulkAdjustModal := false,
         bulkAdjustmentAmount := "", bulkAdjustmentReason := "")
  }

  /** The history after a confirmed bulk adjustment: one new row per target, in list order, before the old rows. */
  lemma BulkAdjustHistory(p: Page, now: nat, stamp: string)
    requires BulkReady(p) && Text.ParsesAsDecimal(Text.RemoveSigns(p.bulkAdjustmentAmount))
    ensures var r := BulkAdjust(p, true, now, stamp);
            var targets := BulkTargets(p);
            && |r.transactions| == |targets| + |p.transactions|
            && r.transactions[|targets|..] == p.transactions
            && forall j :: 0 <= j < |targets| ==>
                 r.transactions[j] == BulkRow(targets[j], ParseAmount(p.bulkAdjustmentAmount), now, stamp, p.bulkAdjustmentReason)
  {
    var rows := BulkRows(BulkTargets(p), ParseAmount(p.bulkAdjustmentAmount), now, stamp, p.bulkAdjustmentReason);
    assert BulkAdjust(p, true, now, stamp).transactions == rows + p.transactions;
    assert (rows + p.transactions)[|rows|..] == p.transactions;
  }

  /** The `users.map` of the bulk adjustment: the targets' balances adjusted, everyone else kept. */
  function BulkUsers(users: seq<UserPoints>, targets: seq<UserPoints>, a: int, now: nat): (r: seq<UserPoints>)
    ensures |r| == |users|
    ensures forall i :: 0 <= i < |users| ==>
              r[i] == if HasId(targets, users[i].id) then Adjusted(users[i], a, now) else users[i]
  {
    seq(|users|, i requires 0 <= i < |users| =>
          if HasId(targets, users[i].id) then Adjusted(users[i], a, now) else users[i])
  }

  /** The `targetUsers.map` of the bulk adjustment: one row per target, in order. */
  function BulkRows(targets: seq<UserPoints>, a: int, now: nat, stamp: string, reason: string): (r: seq<Transaction>)
    ensures |r| == |targets|
    ensures forall j :: 0 <= j < |targets| ==> r[j] == BulkRow(targets[j], a, now, stamp, reason)
  {
    seq(|targets|, j requires 0 <= j < |targets| => BulkRow(targets[j], a, now, stamp, reason))
  }

  /**
   * The bulk adjustment touches only users that are shown by the filter and
   * active, and keeps balances non-negative.
   */
  lemma BulkAdjustTouchesTargets(p: Page, now: nat, stamp: string)
    requires BulkReady(p) && Text.ParsesAsDecimal(Text.RemoveSigns(p.bulkAdjustmentAmount))
    requires NonNegative(p.users)
    ensures var r := BulkAdjust(p, true, now, stamp);
            && NonNegative(r.users)
            && (forall i :: 0 <= i < |p.users| && r.users[i] != p.users[i] ==>
                  exists v :: v in p.users && Shown(v, p.searchQuery, p.statusFilter) && v.status == Active
                              && v.id == p.users[i].id)
  {
    var r := BulkAdjust(p, true, now, stamp);
    var targets := BulkTargets(p);
    forall i | 0 <= i < |p.users| && r.users[i] != p.users[i]
      ensures exists v :: v in p.users && Shown(v, p.searchQuery, p.statusFilter) && v.status == Active
                          && v.id == p.users[i].id
    {
      assert HasId(targets, p.users[i].id);
      var j :| 0 <= j < |targets| && targets[j].id == p.users[i].id;
      assert targets[j] in targets;
    }
  }

  /** One history row per active user of the filtered list. */
  lemma BulkAdjustRowCount(p: Page, now: nat, stamp: string)
    requires BulkReady(p) && Text.ParsesAsDecimal(Text.RemoveSigns(p.bulkAdjustmentAmount))
    ensures |BulkAdjust(p, true, now, stamp).transactions| - |p.transactions|
            == Seqs.Count(FilteredUsers(p), (u: UserPoints) => u.status == Active)
  {
    BulkAdjustHistory(p, now, stamp);
    Seqs.FilterLength(FilteredUsers(p), (u: UserPoints) => u.status == Active);
  }

  /** A page button: the window only offers pages `1 .. totalPages`. */
  function GoToPage(p: Page, page: int): (r: Page)
    requires page in Pagination.PageWindow(p.currentPage, TotalPages(p))
    ensures r.currentPage >= 1 && r == p.(currentPage := page)
  {
    Pagination.PageWindowShape(p.currentPage, TotalPages(p));
    p.(currentPage := page)
  }

  function PreviousPage(p: Page): (r: Page)
    ensures r.currentPage >= 1 && r == p.(currentPage := Pagination.PreviousPage(p.currentPage))
  {
    p.(currentPage := Pagination.PreviousPage(p.currentPage))
  }

  /** The next button, with the page kept at 1 or more (see `Pagination.NextPage`). */
  function NextPage(p: Page): (r: Page)
    requires p.currentPage >= 1
    ensures r.currentPage >= 1 && r == p.(currentPage := Pagination.NextPage(p.currentPage, TotalPages(p)))
  {
    p.(currentPage := Pagination.NextPage(p.currentPage, TotalPages(p)))
  }
}
