/**
 * The shared ledger queries: the generic balance mutator, the
 * soon-to-expire purchase lots, and the paging arithmetic of the user list.
 */
module DbQueries {
  import opened Wrappers
  import opened Ledger
  import Seqs
  import Sorting
  import Text
  import Numbers

  /** The user row after a row of `txType` and `amount` is applied to it. */
  function Credit(u: User, txType: TxType, amount: int): (r: User)
    ensures r.balance == u.balance + amount
    ensures r.totalPurchased - u.totalPurchased == (if txType == Purchase then amount else 0)
    ensures r.totalUsed - u.totalUsed == (if txType == Usage then Abs(amount) else 0)
    ensures r.(balance := u.balance, totalPurchased := u.totalPurchased, totalUsed := u.totalUsed) == u
  {
    u.(balance := u.balance + amount,
       totalPurchased := if txType == Purchase then u.totalPurchased + amount else u.totalPurchased,
       totalUsed := if txType == Usage then u.totalUsed + Abs(amount) else u.totalUsed)
  }

  datatype Applied = Applied(db: Db, entry: Entry) | UserNotFound

  /**
   * `createTransactionWithBalanceUpdate`: read the user, insert a row with the
   * before/after snapshots and store the new balance and counters. There is
   * no check that the new balance stays non-negative.
   */
  function ApplyTransaction(db: Db, userId: UserId, data: TxData, now: int): (r: Applied)
    ensures r.UserNotFound? <==> userId !in db.users
    ensures r.Applied? ==>
      var u := db.users[userId];
      && r.entry == NewEntry(db, userId, data, u.balance, u.balance + data.amount, now)
      && r.entry.balanceAfter == r.entry.balanceBefore + r.entry.amount
      && r.db.rows == db.rows + [r.entry]
      && r.db.nextId == db.nextId + 1
      && r.db.users == db.users[userId := Credit(u, data.txType, data.amount)]
      && r.db.users[userId].balance == r.entry.balanceAfter
  {
    if userId !in db.users then UserNotFound
    else
      var u := db.users[userId];
      var e := NewEntry(db, userId, data, u.balance, u.balance + data.amount, now);
      Applied(Db(db.users[userId := Credit(u, data.txType, data.amount)], db.rows + [e], db.nextId + 1), e)
  }

  /** The mutator keeps every user's balance equal to the replay of that user's rows. */
  lemma ApplyTransactionKeepsConsistent(db: Db, userId: UserId, data: TxData, now: int)
    requires Consistent(db)
    ensures ApplyTransaction(db, userId, data, now).Applied? ==>
              Consistent(ApplyTransaction(db, userId, data, now).db)
  {
    var r := ApplyTransaction(db, userId, data, now);
    if r.Applied? {
      forall uid | uid in r.db.users
        ensures r.db.users[uid].balance == AmountSum(r.db.rows, uid)
      {
        AmountSumAppend(db.rows, r.entry, uid);
      }
    }
  }

  /** Without a floor check the mutator drives a balance of 100 to -400. */
  lemma ApplyTransactionCanGoNegative()
    ensures var u := User("u", None, "", None, 100, 0, 0, Active, "USER", 0);
            var db := Db(map["u" := u], [], 0);
            var r := ApplyTransaction(db, "u", TxData(Usage, -500, "", None, None, None), 0);
            r.Applied? && r.db.users["u"].balance == -400 && !NonNegative(r.db)
  {
    var u := User("u", None, "", None, 100, 0, 0, Active, "USER", 0);
    var db := Db(map["u" := u], [], 0);
    var r := ApplyTransaction(db, "u", TxData(Usage, -500, "", None, None, None), 0);
    assert "u" in r.db.users && r.db.users["u"].balance < 0;
  }

  /** The mutator as the store runs it: read, insert row, update user, in one atomic step. */
  method CreateTransactionWithBalanceUpdate(store: Store, userId: UserId, data: TxData, now: int)
    returns (r: Option<Entry>)
    modifies store
    ensures var spec := ApplyTransaction(old(store.View()), userId, data, now);
            && (spec.UserNotFound? ==> r.None? && store.View() == old(store.View()))
            && (spec.Applied? ==> r == Some(spec.entry) && store.View() == spec.db)
  {
    if userId !in store.users {
      return None;
    }
    var user := store.users[userId];
    var newBalance := user.balance + data.amount;
    var e := store.CreateRow(userId, data, user.balance, newBalance, now);
    store.users := store.users[userId := Credit(user, data.txType, data.amount)];
    return Some(e);
  }

  /** An unexpired purchase lot whose expiry falls in `[from, until]`. */
  predicate ExpiresBetween(e: Entry, from: int, until: int)
  {
    e.txType == Purchase && !e.isExpired && e.expiresAt.Some? && from <= e.expiresAt.value <= until
  }

  function ExpiryKey(e: Entry): int
  {
    if e.expiresAt.Some? then e.expiresAt.value else 0
  }

  /**
   * `getExpiringPoints(daysAhead)`: the unexpired purchase rows expiring
   * between now and `daysAhead` days from now, earliest expiry first.
   */
  function GetExpiringPoints(db: Db, now: int, daysAhead: int): (r: seq<Entry>)
    ensures forall e :: e in r <==> e in db.rows && ExpiresBetween(e, now, now + daysAhead * DAY)
    ensures Sorting.SortedBy(r, ExpiryKey, false)
    ensures multiset(r) == multiset(Seqs.Filter(db.rows, e => ExpiresBetween(e, now, now + daysAhead * DAY)))
  {
    var selected := Seqs.Filter(db.rows, e => ExpiresBetween(e, now, now + daysAhead * DAY));
    Sorting.SortByMembers(selected, ExpiryKey, false);
    Sorting.SortBy(selected, ExpiryKey, false)
  }

  /** `skip = (page - 1) * limit`: the rows before the requested page. */
  function Skip(page: int, limit: int): (r: int)
    requires page >= 1 && limit >= 0
    ensures r >= 0 && r + limit == page * limit
  {
    (page - 1) * limit
  }

  /** `Math.ceil(total / limit)`: the fewest pages of `limit` rows that hold `total` rows. */
  function TotalPages(total: nat, limit: nat): (pages: nat)
    requires limit > 0
    ensures pages * limit >= total
    ensures pages > 0 ==> (pages - 1) * limit < total
  {
    Numbers.CeilDiv(total, limit)
  }

  function StatusName(s: UserStatus): string
  {
    match s
    case Active => "ACTIVE"
    case Suspended => "SUSPENDED"
    case Deleted => "DELETED"
  }

  datatype UserFilters = UserFilters(status: Option<string>, role: Option<string>, search: Option<string>)

  /** Prisma's case-insensitive `contains`. */
  predicate ContainsInsensitive(s: Option<string>, sub: string)
  {
    s.Some? && Text.Contains(Text.ToLower(s.value), Text.ToLower(sub))
  }

  /**
   * The `where` of `getPaginatedUsers`: each truthy filter adds a condition;
   * the search matches the display name or e-mail ignoring case, or the LINE id.
   */
  predicate MatchesUserFilters(u: User, f: UserFilters)
  {
    && (Truthy(f.status) ==> StatusName(u.status) == f.status.value)
    && (Truthy(f.role) ==> u.role == f.role.value)
    && (Truthy(f.search) ==>
          || ContainsInsensitive(Some(u.displayName), f.search.value)
          || ContainsInsensitive(u.email, f.search.value)
          || (u.lineUserId.Some? && Text.Contains(u.lineUserId.value, f.search.value)))
  }

  /** Without filters every user matches. */
  lemma NoFiltersMatchAll(u: User)
    ensures MatchesUserFilters(u, UserFilters(None, None, Some("")))
  {
  }
}
