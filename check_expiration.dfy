/**
 * `/api/points/check-expiration`: the scheduled sweep that expires purchase
 * lots past their `expiresAt`, then the count of users holding lots that
 * expire within thirty days.
 *
 * Each selected row is processed in its own store transaction; a row whose
 * transaction throws (its id is in `failing`) leaves the store as it was and
 * the sweep goes on with the next row. `formatDate` renders a purchase date
 * for the EXPIRATION row's description.
 */
module ExpirationRoute {
  import opened Wrappers
  import opened Ledger
  import DbQueries
  import Seqs
  import opened Numbers

  /** The sweep's `where`: an unexpired PURCHASE row whose expiry is not after `now`. */
  predicate Selected(e: Entry, now: int)
  {
    e.txType == Purchase && e.expiresAt.Some? && e.expiresAt.value <= now && !e.isExpired
  }

  /** `update({where: {id}, data: {isExpired: true, expiredAt: now}})`. */
  function Mark(rows: seq<Entry>, id: nat, now: int): (r: seq<Entry>)
    ensures |r| == |rows|
    ensures forall i :: 0 <= i < |rows| ==>
              r[i] == if rows[i].id == id then rows[i].(isExpired := true, expiredAt := Some(now)) else rows[i]
  {
    seq(|rows|, i requires 0 <= i < |rows| =>
      if rows[i].id == id then rows[i].(isExpired := true, expiredAt := Some(now)) else rows[i])
  }

  function ExpiryDescription(createdAt: int, formatDate: int -> string): string
  {
    "ポイント有効期限切れ (購入日: " + formatDate(createdAt) + ")"
  }

  /**
   * One iteration of the sweep for the row `t` as it was found: an EXPIRATION
   * row for the whole lot, the lot marked expired, and the user's balance
   * lowered by the lot but not below zero.
   */
  function ExpireStep(db: Db, t: Entry, now: int, failing: set<nat>, formatDate: int -> string): (r: Db)
    ensures t.id in failing || t.userId !in db.users ==> r == db
    ensures t.id !in failing && t.userId in db.users ==>
              |r.rows| == |db.rows| + 1 &&
              var u := db.users[t.userId];
              var e := r.rows[|db.rows|];
              && r.nextId == db.nextId + 1
              && r.users == db.users[t.userId := u.(balance := Max0(u.balance - t.amount))]
              && e.id == db.nextId && e.userId == t.userId && e.txType == Expiration
              && e.amount == -t.amount && e.balanceBefore == u.balance
              && e.balanceAfter == Max0(u.balance - t.amount)
              && e.description == ExpiryDescription(t.createdAt, formatDate)
              && (forall i :: 0 <= i < |db.rows| ==>
                    r.rows[i] == if db.rows[i].id == t.id
                                 then db.rows[i].(isExpired := true, expiredAt := Some(now))
                                 else db.rows[i])
  {
    if t.id in failing || t.userId !in db.users then db
    else
      var u := db.users[t.userId];
      var newBalance := Max0(u.balance - t.amount);
      var data := TxData(Expiration, -t.amount, ExpiryDescription(t.createdAt, formatDate), None, None, None);
      var e := NewEntry(db, t.userId, data, u.balance, newBalance, now);
      Db(db.users[t.userId := u.(balance := newBalance)], Mark(db.rows + [e], t.id, now), db.nextId + 1)
  }

  /** The loop over the found rows, in order. */
  function Sweep(db: Db, found: seq<Entry>, now: int, failing: set<nat>, formatDate: int -> string): Db
    decreases |found|
  {
    if found == [] then db
    else Sweep(ExpireStep(db, found[0], now, failing, formatDate), found[1..], now, failing, formatDate)
  }

  function Found(db: Db, now: int): (r: seq<Entry>)
    ensures forall i :: 0 <= i < |r| ==> r[i] in db.rows && Selected(r[i], now)
    ensures forall i :: 0 <= i < |db.rows| && Selected(db.rows[i], now) ==> db.rows[i] in r
  {
    Seqs.Filter(db.rows, e => Selected(e, now))
  }

  /** Each found row still selectable, and whose user exists, is among `rest`. */
  ghost predicate Pending(db: Db, rest: seq<Entry>, now: int)
  {
    forall i :: 0 <= i < |db.rows| && Selected(db.rows[i], now) && db.rows[i].userId in db.users ==>
      db.rows[i] in rest
  }

  lemma StepKeepsPending(db: Db, t: Entry, rest: seq<Entry>, now: int, formatDate: int -> string)
    requires Pending(db, [t] + rest, now)
    ensures Pending(ExpireStep(db, t, now, {}, formatDate), rest, now)
  {
    var r := ExpireStep(db, t, now, {}, formatDate);
    forall i | 0 <= i < |r.rows| && Selected(r.rows[i], now) && r.rows[i].userId in r.users
      ensures r.rows[i] in rest
    {
      if t.userId !in db.users {
        assert r.rows[i] in [t] + rest;
      } else {
        assert r.users.Keys == db.users.Keys;
        assert i < |db.rows|;
        assert db.rows[i].id != t.id;
        assert r.rows[i] == db.rows[i];
        assert r.rows[i] in [t] + rest;
      }
    }
  }

  lemma {:induction false} SweepClearsPending(db: Db, found: seq<Entry>, now: int, formatDate: int -> string)
    requires Pending(db, found, now)
    ensures Pending(Sweep(db, found, now, {}, formatDate), [], now)
    decreases |found|
  {
    if found != [] {
      assert found == [found[0]] + found[1..];
      StepKeepsPending(db, found[0], found[1..], now, formatDate);
      SweepClearsPending(ExpireStep(db, found[0], now, {}, formatDate), found[1..], now, formatDate);
    }
  }

  lemma {:induction false} SweepOfOrphansIsNoop(db: Db, found: seq<Entry>, now: int, failing: set<nat>, formatDate: int -> string)
    requires forall k :: 0 <= k < |found| ==> found[k].userId !in db.users
    ensures Sweep(db, found, now, failing, formatDate) == db
    decreases |found|
  {
    if found != [] {
      SweepOfOrphansIsNoop(db, found[1..], now, failing, formatDate);
    }
  }

  /**
   * After a first sweep in which no row's transaction threw, a second sweep
   * at the same instant changes nothing: what it finds are rows whose user
   * is gone. A row whose transaction threw stays unexpired, so without that
   * condition the next sweep would process it.
   */
  lemma SweepIsIdempotent(db: Db, now: int, failing: set<nat>, formatDate: int -> string)
    ensures var once := Sweep(db, Found(db, now), now, {}, formatDate);
            Sweep(once, Found(once, now), now, failing, formatDate) == once
  {
    var once := Sweep(db, Found(db, now), now, {}, formatDate);
    SweepClearsPending(db, Found(db, now), now, formatDate);
    var again := Found(once, now);
    forall k | 0 <= k < |again| ensures again[k].userId !in once.users {
      var i :| 0 <= i < |once.rows| && once.rows[i] == again[k];
    }
    SweepOfOrphansIsNoop(once, again, now, failing, formatDate);
  }

  /** A row whose transaction throws is skipped, and the rest are processed as if it were absent. */
  lemma {:induction false} FailuresAreSkipped(db: Db, found: seq<Entry>, now: int, failing: set<nat>, formatDate: int -> string)
    ensures Sweep(db, found, now, failing, formatDate)
            == Sweep(db, Seqs.Filter(found, (t: Entry) => t.id !in failing), now, {}, formatDate)
    decreases |found|
  {
    if found != [] {
      FailuresAreSkipped(ExpireStep(db, found[0], now, failing, formatDate), found[1..], now, failing, formatDate);
      if found[0].id in failing {
        assert Seqs.Filter(found, (t: Entry) => t.id !in failing) == Seqs.Filter(found[1..], (t: Entry) => t.id !in failing);
      } else {
        var kept := Seqs.Filter(found, (t: Entry) => t.id !in failing);
        assert kept == [found[0]] + Seqs.Filter(found[1..], (t: Entry) => t.id !in failing);
        assert kept[0] == found[0] && kept[1..] == Seqs.Filter(found[1..], (t: Entry) => t.id !in failing);
      }
    }
  }

  /** The sweep never leaves a negative balance behind. */
  lemma {:induction false} SweepKeepsNonNegative(db: Db, found: seq<Entry>, now: int, failing: set<nat>, formatDate: int -> string)
    requires NonNegative(db)
    ensures NonNegative(Sweep(db, found, now, failing, formatDate))
    decreases |found|
  {
    if found != [] {
      var next := ExpireStep(db, found[0], now, failing, formatDate);
      assert NonNegative(next);
      SweepKeepsNonNegative(next, found[1..], now, failing, formatDate);
    }
  }

  /**
   * When the lot is larger than the balance, the EXPIRATION row records the
   * whole lot but the balance stops at zero: the row breaks
   * `balanceAfter = balanceBefore + amount`, and the rows no longer replay
   * to the balance.
   */
  lemma ClampBreaksReplay(formatDate: int -> string)
    ensures var lot := Entry(0, "u", Purchase, 100, "", 0, 100, None, None, 0, Some(10), false, None);
            var use := Entry(1, "u", Usage, -50, "", 100, 50, None, None, 5, None, false, None);
            var db := Db(map["u" := User("u", None, "", None, 50, 100, 50, Active, "USER", 0)], [lot, use], 2);
            var r := ExpireStep(db, lot, 10, {}, formatDate);
            && Consistent(db) && !Consistent(r)
            && r.rows[2].balanceAfter != r.rows[2].balanceBefore + r.rows[2].amount
  {
    var lot := Entry(0, "u", Purchase, 100, "", 0, 100, None, None, 0, Some(10), false, None);
    var use := Entry(1, "u", Usage, -50, "", 100, 50, None, None, 5, None, false, None);
    var db := Db(map["u" := User("u", None, "", None, 50, 100, 50, Active, "USER", 0)], [lot, use], 2);
    var r := ExpireStep(db, lot, 10, {}, formatDate);
    assert AmountSum([lot], "u") == 100 by { assert [lot][..0] == []; }
    assert AmountSum(db.rows, "u") == 50 by { assert [lot, use][..1] == [lot]; }
    var marked := lot.(isExpired := true, expiredAt := Some(10));
    assert r.rows == [marked, use, r.rows[2]];
    assert AmountSum([marked], "u") == 100 by { assert [marked][..0] == []; }
    assert AmountSum([marked, use], "u") == 50 by { assert [marked, use][..1] == [marked]; }
    assert AmountSum(r.rows, "u") == -50 by { assert r.rows[..2] == [marked, use]; }
    assert r.users["u"].balance == 0;
  }

  /** One iteration on the store. */
  method ExpireOne(store: Store, t: Entry, now: int, failing: set<nat>, formatDate: int -> string)
    modifies store
    ensures store.View() == ExpireStep(old(store.View()), t, now, failing, formatDate)
  {
    if t.id in failing || t.userId !in store.users {
      return;
    }
    var user := store.users[t.userId];
    var newBalance := Max0(user.balance - t.amount);
    var data := TxData(Expiration, -t.amount, ExpiryDescription(t.createdAt, formatDate), None, None, None);
    var _ := store.CreateRow(t.userId, data, user.balance, newBalance, now);
    store.rows := Mark(store.rows, t.id, now);
    store.users := store.users[t.userId := user.(balance := newBalance)];
  }

  /** A user's entry in the warning map. */
  datatype Warning = Warning(user: Option<User>, totalExpiring: int, earliestExpiration: int)

  function UserIds(rows: seq<Entry>): set<UserId>
  {
    set i | 0 <= i < |rows| :: rows[i].userId
  }

  /** The earliest expiry among `uid`'s rows; a later row replaces it only when strictly earlier. */
  function EarliestExpiry(rows: seq<Entry>, uid: UserId): Option<int>
  {
    if rows == [] then None
    else
      var last := rows[|rows| - 1];
      var before := EarliestExpiry(rows[..|rows| - 1], uid);
      if last.userId != uid then before
      else if before.None? || DbQueries.ExpiryKey(last) < before.value then Some(DbQueries.ExpiryKey(last))
      else before
  }

  /** The earliest expiry is absent exactly when the user has no row, and otherwise no later than any of their rows'. */
  lemma {:induction false} EarliestExpiryBounds(rows: seq<Entry>, uid: UserId)
    ensures EarliestExpiry(rows, uid).None? <==> forall i :: 0 <= i < |rows| ==> rows[i].userId != uid
    ensures EarliestExpiry(rows, uid).Some? ==>
              forall i :: 0 <= i < |rows| && rows[i].userId == uid ==> EarliestExpiry(rows, uid).value <= DbQueries.ExpiryKey(rows[i])
  {
    if rows != [] {
      var init := rows[..|rows| - 1];
      EarliestExpiryBounds(init, uid);
      assert forall i :: 0 <= i < |init| ==> init[i] == rows[i];
    }
  }

  /** The earliest expiry is one of the user's own rows' expiry. */
  lemma {:induction false} EarliestExpiryIsAttained(rows: seq<Entry>, uid: UserId)
    ensures EarliestExpiry(rows, uid).Some? ==>
              exists i :: 0 <= i < |rows| && rows[i].userId == uid && EarliestExpiry(rows, uid).value == DbQueries.ExpiryKey(rows[i])
  {
    if rows != [] {
      var init := rows[..|rows| - 1];
      EarliestExpiryIsAttained(init, uid);
      if EarliestExpiry(rows, uid) == EarliestExpiry(init, uid) && EarliestExpiry(init, uid).Some? {
        var i :| 0 <= i < |init| && init[i].userId == uid && EarliestExpiry(init, uid).value == DbQueries.ExpiryKey(init[i]);
        assert rows[i] == init[i];
      }
    }
  }

  function UserSnapshot(users: map<UserId, User>, uid: UserId): Option<User>
  {
    if uid in users then Some(users[uid]) else None
  }

  /** The users of one more row are the users so far and the row's user. */
  lemma UserIdsAppend(s: seq<Entry>, t: Entry)
    ensures UserIds(s + [t]) == UserIds(s) + {t.userId}
  {
    forall x ensures x in UserIds(s + [t]) <==> x in UserIds(s) + {t.userId} {
      if x in UserIds(s) {
        var k :| 0 <= k < |s| && s[k].userId == x;
        assert (s + [t])[k].userId == x;
      }
      if x == t.userId {
        assert (s + [t])[|s|].userId == x;
      }
      if x in UserIds(s + [t]) {
        var k :| 0 <= k < |s + [t]| && (s + [t])[k].userId == x;
        if k < |s| {
          assert s[k].userId == x;
        }
      }
    }
  }

  /** How one user's total and earliest expiry change when one more row is seen. */
  lemma AppendOneAt(s: seq<Entry>, t: Entry, uid: UserId)
    ensures AmountSum(s + [t], uid) == AmountSum(s, uid) + (if t.userId == uid then t.amount else 0)
    ensures EarliestExpiry(s + [t], uid) ==
              var before := EarliestExpiry(s, uid);
              if t.userId != uid then before
              else if before.None? || DbQueries.ExpiryKey(t) < before.value then Some(DbQueries.ExpiryKey(t))
              else before
  {
    assert (s + [t])[..|s|] == s;
    AmountSumAppend(s, t, uid);
  }

  /** How the grouped values change when one more row is seen. */
  lemma AppendOne(s: seq<Entry>, t: Entry)
    ensures UserIds(s + [t]) == UserIds(s) + {t.userId}
    ensures forall uid :: AmountSum(s + [t], uid) == AmountSum(s, uid) + (if t.userId == uid then t.amount else 0)
    ensures forall uid :: EarliestExpiry(s + [t], uid) ==
              var before := EarliestExpiry(s, uid);
              if t.userId != uid then before
              else if before.None? || DbQueries.ExpiryKey(t) < before.value then Some(DbQueries.ExpiryKey(t))
              else before
  {
    UserIdsAppend(s, t);
    forall uid ensures AmountSum(s + [t], uid) == AmountSum(s, uid) + (if t.userId == uid then t.amount else 0) {
      AppendOneAt(s, t, uid);
    }
    forall uid ensures EarliestExpiry(s + [t], uid) ==
              var before := EarliestExpiry(s, uid);
              if t.userId != uid then before
              else if before.None? || DbQueries.ExpiryKey(t) < before.value then Some(DbQueries.ExpiryKey(t))
              else before
    {
      AppendOneAt(s, t, uid);
    }
  }

  /** `w` is the entry of `uid` for the rows `s`. */
  ghost predicate GroupedAt(w: Warning, users: map<UserId, User>, s: seq<Entry>, uid: UserId)
  {
    && w.totalExpiring == AmountSum(s, uid)
    && EarliestExpiry(s, uid) == Some(w.earliestExpiration)
    && w.user == UserSnapshot(users, uid)
  }

  /** `m` groups the rows `s` by user, as the loop builds it. */
  ghost predicate Grouped(m: map<UserId, Warning>, users: map<UserId, User>, s: seq<Entry>)
  {
    && m.Keys == UserIds(s)
    && forall uid :: uid in m ==> GroupedAt(m[uid], users, s, uid)
  }

  /** A row of a user not yet in the map starts that user's entry. */
  lemma GroupedAdd(m: map<UserId, Warning>, users: map<UserId, User>, s: seq<Entry>, t: Entry)
    requires Grouped(m, users, s) && t.userId !in m
    ensures Grouped(m[t.userId := Warning(UserSnapshot(users, t.userId), t.amount, DbQueries.ExpiryKey(t))],
                    users, s + [t])
  {
    var m' := m[t.userId := Warning(UserSnapshot(users, t.userId), t.amount, DbQueries.ExpiryKey(t))];
    UserIdsAppend(s, t);
    forall uid | uid in m' ensures GroupedAt(m'[uid], users, s + [t], uid) {
      AppendOneAt(s, t, uid);
      if uid == t.userId {
        EarliestExpiryBounds(s, t.userId);
        AmountSumOfAbsent(s, t.userId);
      } else {
        assert GroupedAt(m[uid], users, s, uid);
      }
    }
  }

  /** A row of a user already in the map adds its amount and may lower the earliest expiry. */
  lemma GroupedMerge(m: map<UserId, Warning>, users: map<UserId, User>, s: seq<Entry>, t: Entry)
    requires Grouped(m, users, s) && t.userId in m
    ensures var w := m[t.userId];
            var earliest := if DbQueries.ExpiryKey(t) < w.earliestExpiration then DbQueries.ExpiryKey(t) else w.earliestExpiration;
            Grouped(m[t.userId := w.(totalExpiring := w.totalExpiring + t.amount, earliestExpiration := earliest)],
                    users, s + [t])
  {
    var w := m[t.userId];
    var earliest := if DbQueries.ExpiryKey(t) < w.earliestExpiration then DbQueries.ExpiryKey(t) else w.earliestExpiration;
    var m' := m[t.userId := w.(totalExpiring := w.totalExpiring + t.amount, earliestExpiration := earliest)];
    UserIdsAppend(s, t);
    MergedEntries(m, users, s, t);
  }

  /** Every entry is right after a row of a user already in the map. */
  lemma MergedEntries(m: map<UserId, Warning>, users: map<UserId, User>, s: seq<Entry>, t: Entry)
    requires forall uid :: uid in m ==> GroupedAt(m[uid], users, s, uid)
    requires t.userId in m
    ensures var w := m[t.userId];
            var earliest := if DbQueries.ExpiryKey(t) < w.earliestExpiration then DbQueries.ExpiryKey(t) else w.earliestExpiration;
            var m' := m[t.userId := w.(totalExpiring := w.totalExpiring + t.amount, earliestExpiration := earliest)];
            forall uid :: uid in m' ==> GroupedAt(m'[uid], users, s + [t], uid)
  {
    var w := m[t.userId];
    var earliest := if DbQueries.ExpiryKey(t) < w.earliestExpiration then DbQueries.ExpiryKey(t) else w.earliestExpiration;
    var m' := m[t.userId := w.(totalExpiring := w.totalExpiring + t.amount, earliestExpiration := earliest)];
    forall uid | uid in m' ensures GroupedAt(m'[uid], users, s + [t], uid) {
      MergedEntry(m[uid], users, s, t, uid);
    }
  }

  /** One user's entry after a row of the user whose entry is updated. */
  lemma MergedEntry(w: Warning, users: map<UserId, User>, s: seq<Entry>, t: Entry, uid: UserId)
    requires GroupedAt(w, users, s, uid)
    ensures var earliest := if DbQueries.ExpiryKey(t) < w.earliestExpiration then DbQueries.ExpiryKey(t) else w.earliestExpiration;
            GroupedAt(if uid == t.userId then w.(totalExpiring := w.totalExpiring + t.amount, earliestExpiration := earliest) else w,
                      users, s + [t], uid)
  {
    AppendOneAt(s, t, uid);
  }

  lemma {:induction false} AmountSumOfAbsent(s: seq<Entry>, uid: UserId)
    requires forall i :: 0 <= i < |s| ==> s[i].userId != uid
    ensures AmountSum(s, uid) == 0
  {
    if s != [] {
      AmountSumOfAbsent(s[..|s| - 1], uid);
    }
  }

  /** The body of the grouping loop for the row `t`. */
  method Absorb(m: map<UserId, Warning>, users: map<UserId, User>, ghost seen: seq<Entry>, t: Entry)
    returns (m': map<UserId, Warning>)
    requires Grouped(m, users, seen)
    ensures Grouped(m', users, seen + [t])
  {
    if t.userId in m {
      GroupedMerge(m, users, seen, t);
      var w := m[t.userId];
      var earliest := if DbQueries.ExpiryKey(t) < w.earliestExpiration then DbQueries.ExpiryKey(t) else w.earliestExpiration;
      m' := m[t.userId := w.(totalExpiring := w.totalExpiring + t.amount, earliestExpiration := earliest)];
    } else {
      GroupedAdd(m, users, seen, t);
      m' := m[t.userId := Warning(UserSnapshot(users, t.userId), t.amount, DbQueries.ExpiryKey(t))];
    }
  }

  /**
   * The grouping loop: one entry per user among `soon`, holding the sum of
   * that user's amounts and that user's earliest expiry.
   */
  method AggregateWarnings(users: map<UserId, User>, soon: seq<Entry>) returns (m: map<UserId, Warning>)
    ensures Grouped(m, users, soon)
  {
    m := map[];
    var i := 0;
    assert soon[..0] == [];
    while i < |soon|
      invariant 0 <= i <= |soon|
      invariant Grouped(m, users, soon[..i])
    {
      assert soon[..i + 1] == soon[..i] + [soon[i]];
      m := Absorb(m, users, soon[..i], soon[i]);
      i := i + 1;
    }
    assert soon[..i] == soon;
  }

  /** The JSON body of the reply. */
  datatype Summary = Summary(success: bool, processed: nat, warned: nat)

  /** The lots the warning pass considers: unexpired purchases expiring in the next thirty days. */
  function SoonExpiring(db: Db, now: int): seq<Entry>
  {
    Seqs.Filter(db.rows, e => DbQueries.ExpiresBetween(e, now, now + 30 * DAY))
  }

  /**
   * The POST handler: the sweep, then the warning map over the store as the
   * sweep left it. `processed` counts the rows found, whether or not their
   * transaction succeeded; `warned` counts distinct users.
   */
  method Post(store: Store, now: int, failing: set<nat>, formatDate: int -> string) returns (r: Summary)
    modifies store
    ensures store.View() == Sweep(old(store.View()), Found(old(store.View()), now), now, failing, formatDate)
    ensures r == Summary(true, |Found(old(store.View()), now)|, |UserIds(SoonExpiring(store.View(), now))|)
  {
    var found := Found(store.View(), now);
    ghost var db0 := store.View();
    var i := 0;
    while i < |found|
      invariant 0 <= i <= |found|
      invariant Sweep(store.View(), found[i..], now, failing, formatDate) == Sweep(db0, found, now, failing, formatDate)
    {
      assert found[i..][1..] == found[i + 1..];
      ExpireOne(store, found[i], now, failing, formatDate);
      i := i + 1;
    }
    var soon := SoonExpiring(store.View(), now);
    var warnings := AggregateWarnings(store.users, soon);
    return Summary(true, |found|, |warnings.Keys|);
  }
}
