/**
 * The points ledger's stored state: the user table with its cached balance
 * and counters, and the transaction table, one row per balance-changing
 * event. Time is an integer count of milliseconds.
 */
module Ledger {
  import opened Wrappers

  type UserId = string

  /** Milliseconds in one day. */
  const DAY: int := 24 * 60 * 60 * 1000

  datatype TxType = Purchase | Usage | Adjustment | Refund | Bonus | Expiration

  datatype UserStatus = Active | Suspended | Deleted

  /** The enum's stored name, as a query parameter spells it. */
  function TxTypeName(t: TxType): (s: string)
    ensures ParseTxType(s) == Some(t)
  {
    match t
    case Purchase => "PURCHASE"
    case Usage => "USAGE"
    case Adjustment => "ADJUSTMENT"
    case Refund => "REFUND"
    case Bonus => "BONUS"
    case Expiration => "EXPIRATION"
  }

  /** The enum value a string names, if it names one. */
  function ParseTxType(s: string): Option<TxType>
  {
    if s == "PURCHASE" then Some(Purchase)
    else if s == "USAGE" then Some(Usage)
    else if s == "ADJUSTMENT" then Some(Adjustment)
    else if s == "REFUND" then Some(Refund)
    else if s == "BONUS" then Some(Bonus)
    else if s == "EXPIRATION" then Some(Expiration)
    else None
  }

  datatype User = User(
    id: UserId,
    lineUserId: Option<string>,
    displayName: string,
    email: Option<string>,
    balance: int,
    totalPurchased: int,
    totalUsed: int,
    status: UserStatus,
    role: string,
    createdAt: int)

  /** A row of the transaction table. */
  datatype Entry = Entry(
    id: nat,
    userId: UserId,
    txType: TxType,
    amount: int,
    description: string,
    balanceBefore: int,
    balanceAfter: int,
    stripePaymentId: Option<string>,
    stripeSessionId: Option<string>,
    createdAt: int,
    expiresAt: Option<int>,
    isExpired: bool,
    expiredAt: Option<int>)

  /** The data of a row about to be created; the store adds id, snapshots and defaults. */
  datatype TxData = TxData(
    txType: TxType,
    amount: int,
    description: string,
    stripePaymentId: Option<string>,
    stripeSessionId: Option<string>,
    expiresAt: Option<int>)

  /** The whole store as a value; `nextId` is the id the next row receives. */
  datatype Db = Db(users: map<UserId, User>, rows: seq<Entry>, nextId: nat)

  /** The decoded session token: `{userId, role, type}`. */
  datatype Principal = Principal(userId: Option<UserId>, role: string, tokenType: string)

  /** A route's answer: a JSON body, or an HTTP error status with its message. */
  datatype Reply<T> = Ok(value: T) | Err(status: nat, message: string)

  /** The row the store inserts for `data`, with the given snapshots. */
  function NewEntry(db: Db, userId: UserId, data: TxData, before: int, after: int, now: int): (e: Entry)
    ensures e.id == db.nextId && e.userId == userId && e.txType == data.txType
    ensures e.amount == data.amount && e.description == data.description
    ensures e.balanceBefore == before && e.balanceAfter == after && e.createdAt == now
    ensures e.expiresAt == data.expiresAt && !e.isExpired && e.expiredAt.None?
  {
    Entry(db.nextId, userId, data.txType, data.amount, data.description, before, after,
          data.stripePaymentId, data.stripeSessionId, now, data.expiresAt, false, None)
  }

  /** `Math.abs`. */
  function Abs(x: int): (r: nat)
    ensures r == x || r == -x
  {
    if x < 0 then -x else x
  }

  /** The sum of the amounts of `uid`'s rows. */
  function AmountSum(rows: seq<Entry>, uid: UserId): int
  {
    if rows == [] then 0
    else AmountSum(rows[..|rows| - 1], uid)
         + (if rows[|rows| - 1].userId == uid then rows[|rows| - 1].amount else 0)
  }

  lemma AmountSumAppend(rows: seq<Entry>, e: Entry, uid: UserId)
    ensures AmountSum(rows + [e], uid) == AmountSum(rows, uid) + (if e.userId == uid then e.amount else 0)
  {
    assert (rows + [e])[..|rows + [e]| - 1] == rows;
  }

  /**
   * Replaying a user's rows reproduces the cached balance: each user's
   * `balance` is the sum of the amounts of that user's rows.
   */
  ghost predicate Consistent(db: Db)
  {
    forall uid :: uid in db.users ==> db.users[uid].balance == AmountSum(db.rows, uid)
  }

  ghost predicate NonNegative(db: Db)
  {
    forall uid :: uid in db.users ==> db.users[uid].balance >= 0
  }

  /** The store the route handlers act on, one request at a time. */
  class Store {
    var users: map<UserId, User>
    var rows: seq<Entry>
    var nextId: nat

    function View(): Db
      reads this
    {
      Db(users, rows, nextId)
    }

    constructor (db: Db)
      ensures View() == db
    {
      users, rows, nextId := db.users, db.rows, db.nextId;
    }

    /** Inserts a row built from `data` and returns it. */
    method CreateRow(userId: UserId, data: TxData, before: int, after: int, now: int) returns (e: Entry)
      modifies this
      ensures e == NewEntry(old(View()), userId, data, before, after, now)
      ensures rows == old(rows) + [e] && nextId == old(nextId) + 1 && users == old(users)
    {
      e := NewEntry(View(), userId, data, before, after, now);
      rows := rows + [e];
      nextId := nextId + 1;
    }
  }
}
