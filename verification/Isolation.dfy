/** A transaction that writes depends only on its own account and that account's open rows. */
module Isolation {
  import opened ServerConfig
  import opened Database
  import opened Evolution
  import Snapshot

  /** For `user`, `b` is `a` except that purged rows may be gone. */
  ghost predicate SameFor(user: UserId, a: Db, b: Db) {
    && (user in a.accounts <==> user in b.accounts)
    && (user in a.accounts ==> b.accounts[user] == a.accounts[user])
    && (forall id | id in b.rows && b.rows[id].user == user :: id in a.rows && a.rows[id] == b.rows[id])
    && (forall id | id in a.rows && OpenFor(a.rows[id], user) :: id in b.rows && b.rows[id] == a.rows[id])
  }

  lemma SameAsset(user: UserId, a: Db, b: Db, asset: string)
    requires WellFormed(a) && WellFormed(b) && SameFor(user, a, b) && asset != ""
    ensures FindByAsset(a, user, asset).None? ==> FindByAsset(b, user, asset).None?
    ensures FindByAsset(a, user, asset).Some? && FindByAsset(a, user, asset).value.state != Purged ==>
      FindByAsset(b, user, asset) == FindByAsset(a, user, asset)
  {
    AssetLookup(a, user, asset);
    AssetLookup(b, user, asset);
    if FindByAsset(b, user, asset).Some? {
      assert Holds(a, FindByAsset(b, user, asset).value.id, user, asset);
    }
    if FindByAsset(a, user, asset).Some? && FindByAsset(a, user, asset).value.state != Purged {
      assert Holds(b, FindByAsset(a, user, asset).value.id, user, asset);
    }
  }

  lemma SameOpenRows(user: UserId, a: Db, b: Db)
    requires SameFor(user, a, b)
    ensures OpenRows(b, user) == OpenRows(a, user) && forall id | id in OpenRows(a, user) :: b.rows[id] == a.rows[id]
  {
  }

  lemma SameUploadById(user: UserId, a: Db, b: Db, id: RowId, u: UploadInput, now: Time)
    requires WellFormed(a) && WellFormed(b) && SameFor(user, a, b) && PlanUploadById(a, user, id, u, now).Save?
    ensures PlanUploadById(b, user, id, u, now) == PlanUploadById(a, user, id, u, now)
  {
    if u.asset != "" {
      SameAsset(user, a, b, u.asset);
    }
  }

  lemma SameRotation(user: UserId, a: Db, b: Db, items: seq<RekeyItem>, now: Time)
    requires SameFor(user, a, b) && RotationMatches(a, user, items)
    ensures RotationMatches(b, user, items)
    ensures RekeyedRows(b, user, items, now) == RekeyedRows(a, user, items, now)
  {
    SameOpenRows(user, a, b);
    var ids := RekeyIds(items);
    forall i | 0 <= i < |items| ensures RekeyMatches(b, items[i]) {
      assert RekeyMatches(a, items[i]);
      assert ids[i] in Snapshot.IdSet(ids);
      assert Snapshot.IdSet(ids) == OpenRows(a, user);
    }
    Snapshot.SameMap(RekeyedRows(b, user, items, now), RekeyedRows(a, user, items, now));
  }

  lemma SameMigration(user: UserId, a: Db, b: Db, items: seq<MigrationItem>, sha256: Bytes -> Digest, now: Time)
    requires SameFor(user, a, b) && MigrationMatches(a, user, items, sha256)
    ensures MigrationMatches(b, user, items, sha256)
    ensures MigratedRows(b, user, items, now) == MigratedRows(a, user, items, now)
  {
    SameOpenRows(user, a, b);
    var ids := MigrationIds(items);
    forall i | 0 <= i < |items| ensures MoveMatches(b, items[i], sha256) {
      assert MoveMatches(a, items[i], sha256);
      assert ids[i] in Snapshot.IdSet(ids);
      assert Snapshot.IdSet(ids) == OpenRows(a, user);
    }
    Snapshot.SameMap(MigratedRows(b, user, items, now), MigratedRows(a, user, items, now));
  }

  /** Only an open row is ever written by a transition. */
  lemma WrittenIsOpen(row: Row, request: Request, now: Time)
    requires Decide(row, request, now).Write?
    ensures row.state != Purged
  {
  }

  predicate Writes(plan: Plan) {
    plan.Save? || plan.Drop?
  }

  lemma SameMutation(user: UserId, a: Db, b: Db, asset: string, request: Request, now: Time)
    requires WellFormed(a) && WellFormed(b) && SameFor(user, a, b) && asset != ""
    requires Writes(PlanOf(a, user, Mutate(asset, request), now))
    ensures PlanOf(b, user, Mutate(asset, request), now) == PlanOf(a, user, Mutate(asset, request), now)
  {
    SameAsset(user, a, b, asset);
    WrittenIsOpen(FindByAsset(a, user, asset).value, request, now);
  }

  lemma SameCreate(user: UserId, a: Db, b: Db, id: RowId, u: UploadInput, now: Time)
    requires WellFormed(a) && WellFormed(b) && SameFor(user, a, b)
    requires Writes(PlanOf(a, user, Create(id, u), now))
    ensures PlanOf(b, user, Create(id, u), now) == PlanOf(a, user, Create(id, u), now)
  {
    if u.asset != "" {
      SameAsset(user, a, b, u.asset);
    }
  }

  /** A transaction that writes would do the same on any database that is the same for its account. */
  lemma PlanIsIsolated(user: UserId, a: Db, b: Db, op: Op, now: Time)
    requires WellFormed(a) && WellFormed(b) && SameFor(user, a, b) && ValidOp(a, op)
    requires Writes(PlanOf(a, user, op, now))
    ensures PlanOf(b, user, op, now) == PlanOf(a, user, op, now)
  {
    match op
    case Create(id, u) => SameCreate(user, a, b, id, u, now);
    case Mutate(asset, request) => SameMutation(user, a, b, asset, request, now);
    case UploadById(id, u) => SameUploadById(user, a, b, id, u, now);
    case LegacyDelete(id) =>
    case Rotate(items, verify) => SameRotation(user, a, b, items, now);
    case Migrate(items, sha256) => SameMigration(user, a, b, items, sha256, now);
  }

  // ---------------------------------------------------------------- what other accounts' transactions leave alone

  /** Nothing that `user` could notice happened between `a` and `b`. */
  ghost predicate Invisible(user: UserId, a: Db, b: Db) {
    SameFor(user, a, b) && forall r: Revision :: Logged(b, user, r) ==> Logged(a, user, r)
  }

  lemma SavedRowsAreForeign(db: Db, writer: UserId, rows: map<RowId, Row>, user: UserId, after: Db)
    requires forall id | id in rows :: LawfulRow(db, writer, id, rows[id])
    requires user != writer && after.rows == db.rows + rows && after.accounts == db.accounts
    ensures SameFor(user, db, after)
  {
    forall id | id in rows ensures rows[id].user == writer && (id in db.rows ==> db.rows[id].user == writer) {
      assert LawfulRow(db, writer, id, rows[id]);
    }
  }

  lemma SavedLogIsForeign(db: Db, writer: UserId, rows: map<RowId, Row>, user: UserId, r: Revision)
    requires LawfulWrite(db, writer, rows) && user != writer && Logged(SaveAll(db, rows), user, r)
    ensures Logged(db, user, r)
  {
    if r in LogOf(rows) {
      NewEntry(db, writer, rows, r);
    }
  }

  lemma SaveIsForeign(db: Db, writer: UserId, rows: map<RowId, Row>, user: UserId, after: Db)
    requires LawfulWrite(db, writer, rows) && user != writer && after == SaveAll(db, rows)
    ensures Invisible(user, db, after)
  {
    SavedRowsAreForeign(db, writer, rows, user, after);
    forall r: Revision | Logged(after, user, r) ensures Logged(db, user, r) {
      SavedLogIsForeign(db, writer, rows, user, r);
    }
  }

  lemma AccountIsForeign(db: Db, saved: Db, writer: UserId, account: Account, user: UserId, after: Db)
    requires user != writer && Invisible(user, db, saved)
    requires after == saved.(accounts := saved.accounts[writer := account])
    ensures Invisible(user, db, after)
  {
  }

  lemma DropIsForeign(db: Db, ids: set<RowId>, user: UserId, after: Db)
    requires forall id | id in ids && id in db.rows :: db.rows[id].user != user || db.rows[id].state == Purged
    requires after == db.(rows := db.rows - ids)
    ensures Invisible(user, db, after)
  {
  }

  /** What a transaction of another account does is invisible to this one. */
  lemma ExecuteIsForeign(db: Db, writer: UserId, plan: Plan, revisions: map<RowId, Revision>, user: UserId, after: Db)
    requires user != writer && Stampable(plan, revisions) && (plan.Save? && plan.newToken ==> writer in db.accounts)
    requires plan.Save? ==> LawfulWrite(db, writer, Stamp(plan.rows, revisions))
    requires plan.Drop? && plan.id in db.rows ==> db.rows[plan.id].user == writer
    requires after == Execute(db, writer, plan, revisions)
    ensures Invisible(user, db, after)
  {
    if plan.Save? {
      var saved := SaveAll(db, Stamp(plan.rows, revisions));
      SaveIsForeign(db, writer, Stamp(plan.rows, revisions), user, saved);
      if plan.newToken {
        AccountIsForeign(db, saved, writer, NextToken(saved.accounts[writer]), user, after);
      }
    } else if plan.Drop? {
      DropIsForeign(db, {plan.id}, user, after);
    }
  }
}
