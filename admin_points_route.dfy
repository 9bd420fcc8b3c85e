/**
 * `/api/admin/points`: an administrator adjusts a user's balance (POST),
 * or lists users by a search, a status and a sort field (GET).
 */
module AdminPointsRoute {
  import opened Wrappers
  import opened Ledger
  import DbQueries
  import Seqs
  import Text

  /** The POST body; a field the JSON omits is `None`. */
  datatype AdjustBody = AdjustBody(userId: Option<UserId>, amount: Option<int>, reason: Option<string>)

  datatype Adjusted = Adjusted(success: bool, transaction: Entry, newBalance: int)

  /** `!amount` holds for a missing amount and for 0. */
  predicate AmountGiven(amount: Option<int>)
  {
    amount.Some? && amount.value != 0
  }

  predicate FieldsPresent(body: AdjustBody)
  {
    Truthy(body.userId) && AmountGiven(body.amount) && Truthy(body.reason)
  }

  function AdjustmentDescription(reason: string): (d: string)
    ensures |d| == 7 + |reason| && d[..7] == "管理者調整: " && d[7..] == reason
  {
    "管理者調整: " + reason
  }

  /** The POST handler on the whole store. */
  function PostAdjustment(db: Db, token: Option<Principal>, body: AdjustBody, now: int): (r: (Reply<Adjusted>, Db))
    ensures r.0.Err? ==> r.1 == db
    ensures r.0 == Err(401, "Unauthorized") <==> token.None?
    ensures r.0 == Err(403, "Forbidden") <==> token.Some? && token.value.role != "ADMIN"
    ensures r.0 == Err(400, "Missing required fields") <==>
              token.Some? && token.value.role == "ADMIN" && !FieldsPresent(body)
    ensures r.0 == Err(404, "User not found") <==>
              token.Some? && token.value.role == "ADMIN" && FieldsPresent(body) && body.userId.value !in db.users
    ensures r.0 == Err(400, "Insufficient balance") <==>
              && token.Some? && token.value.role == "ADMIN" && FieldsPresent(body) && body.userId.value in db.users
              && db.users[body.userId.value].balance + body.amount.value < 0
    ensures r.0.Ok? ==> FieldsPresent(body) && body.userId.value in db.users
    ensures r.0.Ok? && FieldsPresent(body) && body.userId.value in db.users ==>
              var uid := body.userId.value;
              var u := db.users[uid];
              var e := r.0.value.transaction;
              && r.0.value.success
              && e.txType == Adjustment && e.userId == uid && e.amount == body.amount.value
              && e.description == AdjustmentDescription(body.reason.value)
              && e.balanceBefore == u.balance && e.balanceAfter == u.balance + e.amount
              && r.1.rows == db.rows + [e] && r.1.nextId == db.nextId + 1
              && r.1.users == db.users[uid := u.(balance := e.balanceAfter)]
              && r.0.value.newBalance == r.1.users[uid].balance >= 0
  {
    if token.None? then (Err(401, "Unauthorized"), db)
    else if token.value.role != "ADMIN" then (Err(403, "Forbidden"), db)
    else if !FieldsPresent(body) then (Err(400, "Missing required fields"), db)
    else if body.userId.value !in db.users then (Err(404, "User not found"), db)
    else
      var uid := body.userId.value;
      var user := db.users[uid];
      var newBalance := user.balance + body.amount.value;
      if newBalance < 0 then (Err(400, "Insufficient balance"), db)
      else
        var data := TxData(Adjustment, body.amount.value, AdjustmentDescription(body.reason.value), None, None, None);
        var e := NewEntry(db, uid, data, user.balance, newBalance, now);
        var updated := user.(balance := newBalance);
        (Ok(Adjusted(true, e, updated.balance)), Db(db.users[uid := updated], db.rows + [e], db.nextId + 1))
  }

  /**
   * The adjustment writes what the shared mutator writes for an ADJUSTMENT
   * row; the counters stay as they were either way.
   */
  lemma PostAdjustmentIsMutator(db: Db, token: Option<Principal>, body: AdjustBody, now: int)
    requires PostAdjustment(db, token, body, now).0.Ok?
    ensures var uid := body.userId.value;
            var r := PostAdjustment(db, token, body, now);
            var data := TxData(Adjustment, body.amount.value, AdjustmentDescription(body.reason.value), None, None, None);
            && DbQueries.ApplyTransaction(db, uid, data, now) == DbQueries.Applied(r.1, r.0.value.transaction)
            && r.1.users[uid].totalPurchased == db.users[uid].totalPurchased
            && r.1.users[uid].totalUsed == db.users[uid].totalUsed
  {
    var uid := body.userId.value;
    var u := db.users[uid];
    var r := PostAdjustment(db, token, body, now);
    assert DbQueries.Credit(u, Adjustment, body.amount.value) == u.(balance := u.balance + body.amount.value);
  }

  /** The adjustment keeps balances equal to the replay of the rows and non-negative. */
  lemma PostAdjustmentKeepsInvariants(db: Db, token: Option<Principal>, body: AdjustBody, now: int)
    requires Consistent(db) && NonNegative(db)
    ensures Consistent(PostAdjustment(db, token, body, now).1)
    ensures NonNegative(PostAdjustment(db, token, body, now).1)
  {
    var r := PostAdjustment(db, token, body, now);
    if r.0.Ok? {
      var data := TxData(Adjustment, body.amount.value, AdjustmentDescription(body.reason.value), None, None, None);
      PostAdjustmentIsMutator(db, token, body, now);
      DbQueries.ApplyTransactionKeepsConsistent(db, body.userId.value, data, now);
    }
  }

  /** The POST handler on the store. */
  method Post(store: Store, token: Option<Principal>, body: AdjustBody, now: int) returns (reply: Reply<Adjusted>)
    modifies store
    ensures (reply, store.View()) == PostAdjustment(old(store.View()), token, body, now)
  {
    if token.None? {
      return Err(401, "Unauthorized");
    }
    if token.value.role != "ADMIN" {
      return Err(403, "Forbidden");
    }
    if !FieldsPresent(body) {
      return Err(400, "Missing required fields");
    }
    var uid := body.userId.value;
    if uid !in store.users {
      return Err(404, "User not found");
    }
    var user := store.users[uid];
    var newBalance := user.balance + body.amount.value;
    if newBalance < 0 {
      return Err(400, "Insufficient balance");
    }
    var data := TxData(Adjustment, body.amount.value, AdjustmentDescription(body.reason.value), None, None, None);
    var e := store.CreateRow(uid, data, user.balance, newBalance, now);
    store.users := store.users[uid := user.(balance := newBalance)];
    return Ok(Adjusted(true, e, newBalance));
  }

  datatype SortField = DisplayName | Balance | TotalPurchased | TotalUsed | CreatedAt

  function FieldName(f: SortField): string
  {
    match f
    case DisplayName => "displayName"
    case Balance => "balance"
    case TotalPurchased => "totalPurchased"
    case TotalUsed => "totalUsed"
    case CreatedAt => "createdAt"
  }

  /** The query GET sends: the `where`, the `orderBy`, `skip` and `take`. */
  datatype UserQuery = UserQuery(
    search: Option<string>,
    status: Option<string>,
    orderField: SortField,
    sortOrder: string,
    skip: nat,
    take: nat)

  /** The `orderBy` key for a `sortBy` parameter. */
  function OrderField(sortBy: string): (f: SortField)
    ensures sortBy in {"displayName", "balance", "totalPurchased", "totalUsed"} ==> FieldName(f) == sortBy
    ensures sortBy !in {"displayName", "balance", "totalPurchased", "totalUsed"} ==> f == CreatedAt
  {
    if sortBy == "displayName" then DisplayName
    else if sortBy == "balance" then Balance
    else if sortBy == "totalPurchased" then TotalPurchased
    else if sortBy == "totalUsed" then TotalUsed
    else CreatedAt
  }

  /** The `where.status` for a `status` parameter: upper-cased, and absent for '' and 'all'. */
  function StatusCondition(status: Option<string>): (c: Option<string>)
    ensures c.None? <==> !Truthy(status) || status.value == "all"
    ensures c.Some? ==> c.value == Text.ToUpper(status.value)
  {
    if Truthy(status) && status.value != "all" then Some(Text.ToUpper(status.value)) else None
  }

  /**
   * A `where.status` the ORM accepts: absent, or a value of the user status
   * enum. Any other value fails the ORM's validation, which throws.
   */
  predicate KnownStatus(c: Option<string>)
  {
    c.None? || c.value in {"ACTIVE", "SUSPENDED", "DELETED"}
  }

  /**
   * The GET query for an administrator; the non-admin and missing-token
   * replies come first, and a status the enum does not know is caught as 500.
   */
  function GetQuery(token: Option<Principal>, limitParam: Option<string>, offsetParam: Option<string>,
                    search: Option<string>, status: Option<string>,
                    sortBy: Option<string>, sortOrder: Option<string>): (r: Reply<UserQuery>)
    requires Truthy(limitParam) ==> Text.ParsesAsDecimal(limitParam.value)
    requires Truthy(offsetParam) ==> Text.ParsesAsDecimal(offsetParam.value)
    ensures r == Err(401, "Unauthorized") <==> token.None?
    ensures r == Err(403, "Forbidden") <==> token.Some? && token.value.role != "ADMIN"
    ensures r == Err(500, "Internal server error") <==>
              token.Some? && token.value.role == "ADMIN" && !KnownStatus(StatusCondition(status))
    ensures r.Ok? <==> token.Some? && token.value.role == "ADMIN" && KnownStatus(StatusCondition(status))
    ensures r.Ok? ==>
              && r.value.take == Text.ParseIntOr(limitParam, 20)
              && r.value.skip == Text.ParseIntOr(offsetParam, 0)
              && (r.value.search.Some? <==> Truthy(search))
              && (r.value.search.Some? ==> r.value.search == search)
              && r.value.status == StatusCondition(status)
              && r.value.orderField == (if Truthy(sortBy) then OrderField(sortBy.value) else Balance)
              && r.value.sortOrder == OrElse(sortOrder, Some("desc")).value
  {
    if token.None? then Err(401, "Unauthorized")
    else if token.value.role != "ADMIN" then Err(403, "Forbidden")
    else if !KnownStatus(StatusCondition(status)) then Err(500, "Internal server error")
    else
      Ok(UserQuery(
        if Truthy(search) then search else None,
        StatusCondition(status),
        OrderField(OrElse(sortBy, Some("balance")).value),
        OrElse(sortOrder, Some("desc")).value,
        Text.ParseIntOr(offsetParam, 0),
        Text.ParseIntOr(limitParam, 20)))
  }

  /** Whether a user satisfies the GET `where`; the search ignores case on all three fields. */
  predicate MatchesQuery(u: User, q: UserQuery)
  {
    && (q.search.Some? ==>
          || DbQueries.ContainsInsensitive(Some(u.displayName), q.search.value)
          || DbQueries.ContainsInsensitive(u.email, q.search.value)
          || DbQueries.ContainsInsensitive(u.lineUserId, q.search.value))
    && (q.status.Some? ==> DbQueries.StatusName(u.status) == q.status.value)
  }

  /** `count({where})` over the user table. */
  function Total(db: Db, q: UserQuery): (n: nat)
    ensures n <= |db.users|
  {
    var matching := set uid | uid in db.users && MatchesQuery(db.users[uid], q);
    assert matching <= db.users.Keys;
    Seqs.SubsetCard(matching, db.users.Keys);
    |matching|
  }

  /** `status=active` keeps exactly the active users. */
  lemma StatusActiveSelectsActive(u: User, q: UserQuery)
    requires q.search.None? && q.status == StatusCondition(Some("active"))
    ensures MatchesQuery(u, q) <==> u.status == Active
  {
    assert Text.ToUpper("active") == "ACTIVE";
  }

  /**
   * Only the lower-case 'all' is skipped: `status=ALL` becomes the condition
   * `status: 'ALL'`, which the enum rejects, so an administrator gets 500.
   */
  lemma StatusUpperAllFails(token: Option<Principal>, limitParam: Option<string>, offsetParam: Option<string>,
                            search: Option<string>, sortBy: Option<string>, sortOrder: Option<string>)
    requires Truthy(limitParam) ==> Text.ParsesAsDecimal(limitParam.value)
    requires Truthy(offsetParam) ==> Text.ParsesAsDecimal(offsetParam.value)
    requires token.Some? && token.value.role == "ADMIN"
    ensures GetQuery(token, limitParam, offsetParam, search, Some("ALL"), sortBy, sortOrder) == Err(500, "Internal server error")
  {
    var u := Text.ToUpper("ALL");
    assert u[0] == 'A' && u[1] == 'L' && u[2] == 'L';
    assert u == "ALL";
    assert !KnownStatus(StatusCondition(Some("ALL")));
  }
}
