/**
 * `/api/transactions`: a signed-in user lists their own ledger rows (GET)
 * or records a row against their own balance (POST). POST refuses an
 * ADJUSTMENT from a non-admin and any row that would take the balance
 * below zero.
 */
module TransactionsRoute {
  import opened Wrappers
  import opened Ledger
  import DbQueries
  import Seqs
  import Sorting
  import Text

  /** The JSON body of a POST. */
  datatype PostBody = PostBody(
    txType: TxType,
    amount: int,
    description: string,
    stripePaymentId: Option<string>,
    stripeSessionId: Option<string>)

  /** The success body of a POST: the created row and the stored balance. */
  datatype Posted = Posted(transaction: Entry, newBalance: int)

  function BodyData(body: PostBody): (d: TxData)
    ensures d.txType == body.txType && d.amount == body.amount && d.expiresAt.None?
  {
    TxData(body.txType, body.amount, body.description, body.stripePaymentId, body.stripeSessionId, None)
  }

  /** The POST handler on the whole store: the reply and the store afterwards. */
  function PostTransaction(db: Db, token: Option<Principal>, body: PostBody, now: int): (r: (Reply<Posted>, Db))
    ensures r.0.Err? ==> r.1 == db
    ensures r.0 == Err(401, "Unauthorized") <==> token.None?
    ensures r.0 == Err(403, "Forbidden") <==>
              token.Some? && body.txType == Adjustment && token.value.role != "ADMIN"
    ensures r.0 == Err(404, "User not found") <==>
              && token.Some? && !(body.txType == Adjustment && token.value.role != "ADMIN")
              && token.value.userId.Some? && token.value.userId.value !in db.users
    ensures r.0 == Err(400, "Insufficient balance") <==>
              && token.Some? && !(body.txType == Adjustment && token.value.role != "ADMIN")
              && token.value.userId.Some? && token.value.userId.value in db.users
              && db.users[token.value.userId.value].balance + body.amount < 0
    ensures r.0.Ok? ==> token.Some? && token.value.userId.Some?
    ensures r.0.Ok? && token.Some? && token.value.userId.Some? ==>
              var uid := token.value.userId.value;
              && uid in db.users && uid in r.1.users
              && DbQueries.ApplyTransaction(db, uid, BodyData(body), now)
                   == DbQueries.Applied(r.1, r.0.value.transaction)
              && r.0.value.transaction.balanceBefore == db.users[uid].balance
              && r.0.value.transaction.balanceAfter == r.0.value.transaction.balanceBefore + body.amount
              && r.0.value.newBalance == r.1.users[uid].balance == r.0.value.transaction.balanceAfter
              && r.0.value.newBalance >= 0
  {
    if token.None? then (Err(401, "Unauthorized"), db)
    else if body.txType == Adjustment && token.value.role != "ADMIN" then (Err(403, "Forbidden"), db)
    // findUnique with an undefined id is rejected by the ORM and caught
    else if token.value.userId.None? then (Err(500, "Internal server error"), db)
    else if token.value.userId.value !in db.users then (Err(404, "User not found"), db)
    else
      var uid := token.value.userId.value;
      var user := db.users[uid];
      var newBalance := user.balance + body.amount;
      if newBalance < 0 then (Err(400, "Insufficient balance"), db)
      else
        var e := NewEntry(db, uid, BodyData(body), user.balance, newBalance, now);
        var updated := DbQueries.Credit(user, body.txType, body.amount);
        (Ok(Posted(e, updated.balance)), Db(db.users[uid := updated], db.rows + [e], db.nextId + 1))
  }

  /** POST keeps balances equal to the replay of the rows, and never makes one negative. */
  lemma PostKeepsInvariants(db: Db, token: Option<Principal>, body: PostBody, now: int)
    requires Consistent(db) && NonNegative(db)
    ensures Consistent(PostTransaction(db, token, body, now).1)
    ensures NonNegative(PostTransaction(db, token, body, now).1)
  {
    var r := PostTransaction(db, token, body, now);
    if r.0.Ok? {
      DbQueries.ApplyTransactionKeepsConsistent(db, token.value.userId.value, BodyData(body), now);
    }
  }

  /** Any signed-in user may credit their own balance with a PURCHASE row. */
  lemma PostLetsUserSelfCredit()
    ensures var u := User("u", None, "", None, 0, 0, 0, Active, "USER", 0);
            var db := Db(map["u" := u], [], 0);
            var r := PostTransaction(db, Some(Principal(Some("u"), "USER", "user")),
                                     PostBody(Purchase, 1000000, "", None, None), 0);
            r.0.Ok? && r.1.users["u"].balance == 1000000 && r.1.users["u"].totalPurchased == 1000000
  {
    var u := User("u", None, "", None, 0, 0, 0, Active, "USER", 0);
    var db := Db(map["u" := u], [], 0);
    var r := PostTransaction(db, Some(Principal(Some("u"), "USER", "user")),
                             PostBody(Purchase, 1000000, "", None, None), 0);
    assert r.1.users == db.users["u" := DbQueries.Credit(u, Purchase, 1000000)];
  }

  /** The POST handler on the store. */
  method Post(store: Store, token: Option<Principal>, body: PostBody, now: int) returns (reply: Reply<Posted>)
    modifies store
    ensures (reply, store.View()) == PostTransaction(old(store.View()), token, body, now)
  {
    if token.None? {
      return Err(401, "Unauthorized");
    }
    var decoded := token.value;
    if body.txType == Adjustment && decoded.role != "ADMIN" {
      return Err(403, "Forbidden");
    }
    if decoded.userId.None? {
      return Err(500, "Internal server error");
    }
    var uid := decoded.userId.value;
    if uid !in store.users {
      return Err(404, "User not found");
    }
    var user := store.users[uid];
    var newBalance := user.balance + body.amount;
    if newBalance < 0 {
      return Err(400, "Insufficient balance");
    }
    var e := store.CreateRow(uid, BodyData(body), user.balance, newBalance, now);
    var updated := DbQueries.Credit(user, body.txType, body.amount);
    store.users := store.users[uid := updated];
    return Ok(Posted(e, updated.balance));
  }

  /** The success body of a GET. */
  datatype Listing = Listing(transactions: seq<Entry>, total: nat, limit: nat, offset: nat)

  /** The GET `where`: the caller's rows (no filter when the token has no id), of one type if asked. */
  predicate Listed(e: Entry, uid: Option<UserId>, t: Option<TxType>)
  {
    (uid.Some? ==> e.userId == uid.value) && (t.Some? ==> e.txType == t.value)
  }

  function CreatedKey(e: Entry): int
  {
    e.createdAt
  }

  /**
   * `findMany({where, orderBy: {createdAt: 'desc'}, skip: offset, take: limit})`
   * with `count({where})`, where `where` is `Listed(_, uid, t)`.
   */
  function ListRows(rows: seq<Entry>, uid: Option<UserId>, t: Option<TxType>, limit: nat, offset: nat): (l: Listing)
    ensures l.limit == limit && l.offset == offset
    ensures l.total == Seqs.Count(rows, e => Listed(e, uid, t))
    ensures |l.transactions| <= limit
    ensures |l.transactions| == (if offset >= l.total then 0
                                 else if offset + limit <= l.total then limit
                                 else l.total - offset)
    ensures forall i :: 0 <= i < |l.transactions| ==> l.transactions[i] in rows && Listed(l.transactions[i], uid, t)
    ensures Sorting.SortedBy(l.transactions, CreatedKey, true)
    ensures exists o: seq<Entry> :: && multiset(o) == multiset(Seqs.Filter(rows, e => Listed(e, uid, t)))
                                    && Sorting.SortedBy(o, CreatedKey, true)
                                    && l.transactions == Seqs.Window(o, offset, limit)
  {
    var matching := Seqs.Filter(rows, e => Listed(e, uid, t));
    var ordered := Sorting.SortBy(matching, CreatedKey, true);
    OrderedWindow(rows, e => Listed(e, uid, t), limit, offset);
    var l := Listing(Seqs.Window(ordered, offset, limit), |matching|, limit, offset);
    assert multiset(ordered) == multiset(matching) && Sorting.SortedBy(ordered, CreatedKey, true)
           && l.transactions == Seqs.Window(ordered, offset, limit);
    l
  }

  /** The rows a filter keeps, newest first, then one window of them. */
  lemma OrderedWindow(rows: seq<Entry>, keep: Entry -> bool, limit: nat, offset: nat)
    ensures var matching := Seqs.Filter(rows, keep);
            var page := Seqs.Window(Sorting.SortBy(matching, CreatedKey, true), offset, limit);
            && |matching| == Seqs.Count(rows, keep)
            && |page| == (if offset >= |matching| then 0 else if offset + limit <= |matching| then limit else |matching| - offset)
            && (forall i :: 0 <= i < |page| ==> page[i] in rows && keep(page[i]))
            && Sorting.SortedBy(page, CreatedKey, true)
  {
    var matching := Seqs.Filter(rows, keep);
    var ordered := Sorting.SortBy(matching, CreatedKey, true);
    var page := Seqs.Window(ordered, offset, limit);
    Sorting.SortByMembers(matching, CreatedKey, true);
    Seqs.FilterLength(rows, keep);
    WindowKeepsOrder(ordered, offset, limit);
    forall i | 0 <= i < |page| ensures page[i] in rows && keep(page[i]) {
      assert page[i] in matching;
      var j :| 0 <= j < |matching| && matching[j] == page[i];
    }
  }

  /** A window of a newest-first list is newest-first and made of the list's rows. */
  lemma WindowKeepsOrder(s: seq<Entry>, offset: nat, limit: nat)
    requires Sorting.SortedBy(s, CreatedKey, true)
    ensures Sorting.SortedBy(Seqs.Window(s, offset, limit), CreatedKey, true)
    ensures forall i :: 0 <= i < |Seqs.Window(s, offset, limit)| ==> Seqs.Window(s, offset, limit)[i] in s
  {
    var w := Seqs.Window(s, offset, limit);
    forall i, j | 0 <= i < j < |w| ensures Sorting.InOrder(CreatedKey(w[i]), CreatedKey(w[j]), true) {
      assert w[i] == s[offset + i] && w[j] == s[offset + j];
    }
    forall i | 0 <= i < |w| ensures w[i] in s {
      assert w[i] == s[offset + i];
    }
  }

  /** A first page at least as large as the total lists every matching row. */
  lemma ListRowsFirstPageIsComplete(rows: seq<Entry>, uid: Option<UserId>, t: Option<TxType>, limit: nat)
    requires limit >= Seqs.Count(rows, e => Listed(e, uid, t))
    ensures multiset(ListRows(rows, uid, t, limit, 0).transactions) == multiset(Seqs.Filter(rows, e => Listed(e, uid, t)))
  {
    var matching := Seqs.Filter(rows, e => Listed(e, uid, t));
    var ordered := Sorting.SortBy(matching, CreatedKey, true);
    Sorting.SortByMembers(matching, CreatedKey, true);
    Seqs.FilterLength(rows, e => Listed(e, uid, t));
    assert ListRows(rows, uid, t, limit, 0).transactions == ordered;
  }

  /** The `type` query parameter as a row type; `None` when absent or empty. */
  function TypeParam(typeParam: Option<string>): Option<TxType>
  {
    if Truthy(typeParam) then ParseTxType(typeParam.value) else None
  }

  /**
   * The GET handler. The window is taken from the caller's rows, newest first;
   * when the token carries no id the ORM drops the `userId` condition. A `type`
   * that names no row type fails the ORM's enum validation and is caught.
   */
  function GetTransactions(db: Db, token: Option<Principal>, limitParam: Option<string>,
                           offsetParam: Option<string>, typeParam: Option<string>): (r: Reply<Listing>)
    requires Truthy(limitParam) ==> Text.ParsesAsDecimal(limitParam.value)
    requires Truthy(offsetParam) ==> Text.ParsesAsDecimal(offsetParam.value)
    ensures r == Err(401, "Unauthorized") <==> token.None?
    ensures r == Err(500, "Internal server error") <==>
              token.Some? && Truthy(typeParam) && ParseTxType(typeParam.value).None?
    ensures r.Ok? <==> token.Some? && !(Truthy(typeParam) && ParseTxType(typeParam.value).None?)
    ensures r.Ok? ==>
              token.Some? && r.value == ListRows(db.rows, token.value.userId, TypeParam(typeParam),
                                  Text.ParseIntOr(limitParam, 20), Text.ParseIntOr(offsetParam, 0))
  {
    if token.None? then Err(401, "Unauthorized")
    else if Truthy(typeParam) && ParseTxType(typeParam.value).None? then Err(500, "Internal server error")
    else Ok(ListRows(db.rows, token.value.userId, TypeParam(typeParam), Text.ParseIntOr(limitParam, 20), Text.ParseIntOr(offsetParam, 0)))
  }

  /** A caller with an id sees only their own rows. */
  lemma GetListsOnlyOwnRows(db: Db, token: Option<Principal>, limitParam: Option<string>,
                            offsetParam: Option<string>, typeParam: Option<string>)
    requires Truthy(limitParam) ==> Text.ParsesAsDecimal(limitParam.value)
    requires Truthy(offsetParam) ==> Text.ParsesAsDecimal(offsetParam.value)
    requires token.Some? && token.value.userId.Some?
    ensures var r := GetTransactions(db, token, limitParam, offsetParam, typeParam);
            r.Ok? ==> forall i :: 0 <= i < |r.value.transactions| ==>
                        r.value.transactions[i].userId == token.value.userId.value
  {
  }
}
