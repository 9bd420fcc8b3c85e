/**
 * `DELETE /api/user/delete`: a signed-in user removes their own account:
 * every ledger row of theirs, then the user row, in one store transaction.
 */
module UserDeleteRoute {
  import opened Wrappers
  import opened Ledger
  import Seqs

  datatype Removed = Removed(success: bool, message: string)

  /** The rows that survive the `deleteMany({where: {userId}})`. */
  function RowsWithout(rows: seq<Entry>, uid: UserId): (r: seq<Entry>)
    ensures forall i :: 0 <= i < |r| ==> r[i].userId != uid && r[i] in rows
    ensures forall i :: 0 <= i < |rows| && rows[i].userId != uid ==> rows[i] in r
  {
    Seqs.Filter(rows, (e: Entry) => e.userId != uid)
  }

  /** The DELETE handler on the whole store. */
  function DeleteAccount(db: Db, token: Option<Principal>): (r: (Reply<Removed>, Db))
    ensures r.0.Err? ==> r.1 == db
    ensures r.0 == Err(401, "Not authenticated") <==> token.None?
    ensures r.0 == Err(401, "Invalid token") <==> token.Some? && !Truthy(token.value.userId)
    ensures r.0 == Err(404, "User not found") <==>
              token.Some? && Truthy(token.value.userId) && token.value.userId.value !in db.users
    ensures r.0 == Err(400, "Account already deleted") <==>
              && token.Some? && Truthy(token.value.userId) && token.value.userId.value in db.users
              && db.users[token.value.userId.value].status == Deleted
    ensures r.0.Ok? <==>
              && token.Some? && Truthy(token.value.userId) && token.value.userId.value in db.users
              && db.users[token.value.userId.value].status != Deleted
    ensures r.0.Ok? && token.Some? && Truthy(token.value.userId) ==>
              var uid := token.value.userId.value;
              && r.0.value.success
              && r.1.users == db.users - {uid}
              && r.1.rows == RowsWithout(db.rows, uid)
              && r.1.nextId == db.nextId
  {
    if token.None? then (Err(401, "Not authenticated"), db)
    else if !Truthy(token.value.userId) then (Err(401, "Invalid token"), db)
    else
      var uid := token.value.userId.value;
      if uid !in db.users then (Err(404, "User not found"), db)
      else if db.users[uid].status == Deleted then (Err(400, "Account already deleted"), db)
      else
        (Ok(Removed(true, "アカウントが正常に削除されました")),
         Db(db.users - {uid}, RowsWithout(db.rows, uid), db.nextId))
  }

  /** Filtering by a test that keeps every row of `other` does not change `other`'s replayed sum. */
  lemma {:induction false} AmountSumOfFilter(rows: seq<Entry>, p: Entry -> bool, other: UserId)
    requires forall e: Entry :: e.userId == other ==> p(e)
    ensures AmountSum(Seqs.Filter(rows, p), other) == AmountSum(rows, other)
  {
    if rows == [] {
      assert Seqs.Filter(rows, p) == [];
    } else {
      var init := rows[..|rows| - 1];
      var last := rows[|rows| - 1];
      var kept := Seqs.Filter(init, p);
      assert rows == init + [last];
      FilterLast(init, last, p);
      AmountSumOfFilter(init, p, other);
      if p(last) {
        AmountSumAppend(kept, last, other);
      } else {
        assert Seqs.Filter(rows, p) == kept;
      }
    }
  }

  /** Filtering a list with one more row at the end. */
  lemma FilterLast(init: seq<Entry>, last: Entry, p: Entry -> bool)
    ensures Seqs.Filter(init + [last], p) == Seqs.Filter(init, p) + (if p(last) then [last] else [])
  {
    Seqs.FilterConcat(init, [last], p);
    assert [last][1..] == [];
    assert Seqs.Filter([last], p) == (if p(last) then [last] else []) + Seqs.Filter([], p);
  }

  /** The remaining users still replay to their balances, and nothing of the deleted user stays. */
  lemma DeleteKeepsConsistent(db: Db, token: Option<Principal>)
    requires Consistent(db)
    ensures Consistent(DeleteAccount(db, token).1)
    ensures DeleteAccount(db, token).0.Ok? ==>
              var uid := token.value.userId.value;
              var after := DeleteAccount(db, token).1;
              uid !in after.users && forall i :: 0 <= i < |after.rows| ==> after.rows[i].userId != uid
  {
    var r := DeleteAccount(db, token);
    if r.0.Ok? {
      var uid := token.value.userId.value;
      forall v | v in r.1.users ensures r.1.users[v].balance == AmountSum(r.1.rows, v) {
        AmountSumOfFilter(db.rows, (e: Entry) => e.userId != uid, v);
      }
    }
  }

  /** The DELETE handler on the store: first the rows, then the user row. */
  method Delete(store: Store, token: Option<Principal>) returns (reply: Reply<Removed>)
    modifies store
    ensures (reply, store.View()) == DeleteAccount(old(store.View()), token)
  {
    if token.None? {
      return Err(401, "Not authenticated");
    }
    if !Truthy(token.value.userId) {
      return Err(401, "Invalid token");
    }
    var uid := token.value.userId.value;
    if uid !in store.users {
      return Err(404, "User not found");
    }
    if store.users[uid].status == Deleted {
      return Err(400, "Account already deleted");
    }
    store.rows := RowsWithout(store.rows, uid);
    store.users := store.users - {uid};
    return Ok(Removed(true, "アカウントが正常に削除されました"));
  }
}
