/** Start-up migration: the uniqueness index on assets, and revisions for rows older than the change log. */
module Backfill {
  import opened Wrappers
  import opened ServerConfig
  import opened Database
  import opened Store
  import Snapshot

  predicate HasEntry(log: map<Revision, Change>, id: RowId) {
    exists r | r in log :: log[r].config == id
  }

  ghost predicate IsLatest(log: map<Revision, Change>, id: RowId, r: Revision) {
    r in log && log[r].config == id && forall s | s in log && log[s].config == id :: s <= r
  }

  /** Rows the `INSERT ... SELECT` picks. */
  function Missing(db: Db): set<RowId> {
    set id | id in db.rows && db.rows[id].revision == 0 && !HasEntry(db.log, id)
  }

  /** One entry for every missing row, all of them above what the log held. */
  ghost predicate Inserted(db: Db, log: map<Revision, Change>) {
    && (forall r | r in db.log :: r in log && log[r] == db.log[r])
    && (forall r | r in log && r !in db.log ::
          r > 0 && log[r].config in Missing(db) && log[r] == ChangeOf(db.rows[log[r].config]))
    && (forall id | id in Missing(db) :: HasEntry(log, id))
  }

  ghost predicate IsIndexOf(was: Row, now: Row, log: map<Revision, Change>) {
    if was.revision == 0 && HasEntry(log, was.id)
    then IsLatest(log, was.id, now.revision) && now == was.(revision := now.revision)
    else now == was
  }

  /** What one start-up does to the tables, whatever they hold. */
  ghost predicate Backfilled(was: Db, now: Db) {
    && now.acks == was.acks && now.accounts == was.accounts
    && Inserted(was, now.log)
    && now.rows.Keys == was.rows.Keys
    && forall id | id in was.rows :: IsIndexOf(was.rows[id], now.rows[id], now.log)
  }

  ghost predicate KnowsRows(rows: map<RowId, Row>, lastRow: RowId) {
    forall id | id in rows :: rows[id].id == id <= lastRow
  }

  method InsertMissing(tables: Tables)
    requires tables.SequencesAhead() && KnowsRows(tables.rows, tables.lastRow)
    modifies tables`log, tables`lastRevision
    ensures tables.SequencesAhead() && Inserted(old(tables.Value()), tables.log)
  {
    ghost var was, first := tables.Value(), tables.lastRevision;
    var rest := set id | id in tables.rows && tables.rows[id].revision == 0 && !HasEntry(tables.log, id);
    assert rest == Missing(was);
    while rest != {}
      invariant rest <= Missing(was) && tables.SequencesAhead() && first <= tables.lastRevision
      invariant forall r | r in was.log :: r in tables.log && tables.log[r] == was.log[r]
      invariant forall r | r in tables.log && r !in was.log ::
        r > 0 && tables.log[r].config in Missing(was) && tables.log[r] == ChangeOf(was.rows[tables.log[r].config])
      invariant forall id | id in Missing(was) && id !in rest :: HasEntry(tables.log, id)
      decreases rest
    {
      var id :| id in rest;
      ghost var before := tables.log;
      tables.lastRevision := tables.lastRevision + 1;
      tables.log := tables.log[tables.lastRevision := ChangeOf(tables.rows[id])];
      forall other | HasEntry(before, other) ensures HasEntry(tables.log, other) {
        var r :| r in before && before[r].config == other;
        assert r in tables.log && tables.log[r].config == other;
      }
      assert tables.log[tables.lastRevision].config == id;
      rest := rest - {id};
    }
  }

  /** `SELECT MAX(id) ... GROUP BY config_id` */
  method LatestEntry(log: map<Revision, Change>, id: RowId) returns (latest: Option<Revision>)
    ensures latest.Some? <==> HasEntry(log, id)
    ensures latest.Some? ==> IsLatest(log, id, latest.value)
  {
    latest := None;
    var rest := log.Keys;
    while rest != {}
      invariant rest <= log.Keys
      invariant latest.None? ==> forall r | r in log && log[r].config == id :: r in rest
      invariant latest.Some? ==> latest.value in log && log[latest.value].config == id
      invariant latest.Some? ==> forall r | r in log && log[r].config == id :: r in rest || r <= latest.value
      decreases rest
    {
      var r :| r in rest;
      if log[r].config == id && (latest.None? || latest.value < r) {
        latest := Some(r);
      }
      rest := rest - {r};
    }
  }

  method IndexRows(tables: Tables)
    requires KnowsRows(tables.rows, tables.lastRow)
    modifies tables`rows
    ensures tables.rows.Keys == old(tables.rows).Keys
    ensures forall id | id in tables.rows :: IsIndexOf(old(tables.rows)[id], tables.rows[id], tables.log)
  {
    ghost var was := tables.rows;
    var rest := tables.rows.Keys;
    while rest != {}
      invariant rest <= tables.rows.Keys == was.Keys
      invariant forall id | id in rest :: tables.rows[id] == was[id]
      invariant forall id | id in was && id !in rest :: IsIndexOf(was[id], tables.rows[id], tables.log)
      decreases rest
    {
      var id :| id in rest;
      if tables.rows[id].revision == 0 {
        var latest := LatestEntry(tables.log, id);
        if latest.Some? {
          tables.rows := tables.rows[id := tables.rows[id].(revision := latest.value)];
        }
      }
      rest := rest - {id};
    }
  }

  /** `CREATE UNIQUE INDEX` fails on duplicates; the backfill after it is one transaction. */
  method MigrateDatabase(tables: Tables) returns (r: Result<()>)
    requires tables.SequencesAhead() && KnowsRows(tables.rows, tables.lastRow)
    modifies tables
    ensures tables.SequencesAhead()
    ensures r == if UniqueAssets(old(tables.rows)) then Ok(()) else Err(DuplicateAsset)
    ensures if r.Ok? then Backfilled(old(tables.Value()), tables.Value()) else tables.Value() == old(tables.Value())
  {
    var rows := tables.rows;
    if exists i, j | i in rows && j in rows && i != j ::
         rows[i].user == rows[j].user && rows[i].asset == rows[j].asset && rows[i].asset != "" {
      return Err(DuplicateAsset);
    }
    InsertMissing(tables);
    IndexRows(tables);
    return Ok(());
  }

  // ---------------------------------------------------------------- what the backfill establishes

  /** An unrevised row whose log, if it has any, already ends with the row as it is. */
  ghost predicate Repairable(db: Db, id: RowId)
    requires id in db.rows
  {
    var row := db.rows[id];
    && row.revision == 0 && 0 !in db.log
    && (forall r | r in db.log && db.log[r].config == id :: db.log[r].user == row.user)
    && (forall r | IsLatest(db.log, id, r) :: db.log[r] == ChangeOf(row))
  }

  /**
    Exactly which rows the backfill leaves indexed: those that were, and those it could repair. A row
    at revision 0 with a log that ends differently is pointed at that log's last entry all the same.
   */
  lemma BackfillIndexesIff(was: Db, now: Db, id: RowId)
    requires Backfilled(was, now) && id in was.rows && was.rows[id].id == id && 0 !in was.log
    ensures Indexed(now, id) <==> Indexed(was, id) || Repairable(was, id)
  {
    EntriesOf(was, now, id);
    if was.rows[id].revision == 0 {
      assert id in Missing(was) ==> HasEntry(now.log, id);
      if id !in Missing(was) {
        assert HasEntry(was.log, id);
      }
    }
  }

  /** The backfill adds an entry about a row only when there was none. */
  lemma EntriesOf(was: Db, now: Db, id: RowId)
    requires Backfilled(was, now) && id in was.rows && was.rows[id].id == id
    ensures id !in Missing(was) ==>
      forall r :: r in now.log && now.log[r].config == id <==> r in was.log && was.log[r].config == id
    ensures id in Missing(was) ==>
      forall r | r in now.log && now.log[r].config == id :: r !in was.log && now.log[r] == ChangeOf(was.rows[id])
  {
  }

  /** Tables of any mix of old and new rows, as an upgrade finds them. */
  ghost predicate Upgradable(db: Db) {
    && 0 !in db.log && AcksBounded(db)
    && forall id | id in db.rows ::
         db.rows[id].id == id && db.rows[id].user in db.accounts && Shape(db.rows[id]) &&
         (Indexed(db, id) || (db.rows[id].revision == 0 && !HasEntry(db.log, id)))
  }

  lemma BackfillKeepsAcks(was: Db, now: Db)
    requires AcksBounded(was) && Backfilled(was, now)
    ensures AcksBounded(now)
  {
    forall key | key in now.acks && now.acks[key] != 0
      ensures exists r: Revision :: Logged(now, key.0, r) && r >= now.acks[key]
    {
      var r: Revision :| Logged(was, key.0, r) && r >= was.acks[key];
      assert Logged(now, key.0, r);
    }
  }

  lemma BackfillKeepsUnique(was: Db, now: Db)
    requires UniqueAssets(was.rows) && Backfilled(was, now)
    ensures UniqueAssets(now.rows)
  {
    assert forall id | id in was.rows :: IsIndexOf(was.rows[id], now.rows[id], now.log);
  }

  lemma BackfillKeepsShape(was: Row, now: Row, log: map<Revision, Change>)
    requires Shape(was) && IsIndexOf(was, now, log)
    ensures Shape(now) && now.id == was.id && now.user == was.user
  {
  }

  /** After start-up every invariant of the running system holds. */
  lemma BackfillEstablishesInvariant(was: Db, now: Db)
    requires Upgradable(was) && UniqueAssets(was.rows) && Backfilled(was, now)
    ensures WellFormed(now)
  {
    BackfillKeepsAcks(was, now);
    BackfillKeepsUnique(was, now);
    assert 0 !in now.log;
    forall id | id in now.rows
      ensures now.rows[id].id == id && now.rows[id].user in now.accounts && Shape(now.rows[id]) && Indexed(now, id)
    {
      BackfillIndexesIff(was, now, id);
      BackfillKeepsShape(was.rows[id], now.rows[id], now.log);
    }
  }

  lemma RevisedAfter(was: Db, now: Db, id: RowId)
    requires 0 !in was.log && id in was.rows && was.rows[id].id == id && Backfilled(was, now)
    ensures now.rows[id].revision > 0
  {
    assert IsIndexOf(was.rows[id], now.rows[id], now.log);
    if was.rows[id].revision == 0 && id !in Missing(was) {
      var r :| r in was.log && was.log[r].config == id;
      assert r in now.log && now.log[r].config == id;
    }
  }

  lemma NothingMissing(was: Db, now: Db)
    requires Backfilled(was, now) && forall id | id in was.rows :: was.rows[id].revision > 0
    ensures now == was
  {
    assert Missing(was) == {};
    assert now.log.Keys == was.log.Keys;
    Snapshot.SameMap(now.log, was.log);
    forall id | id in was.rows ensures now.rows[id] == was.rows[id] {
      assert IsIndexOf(was.rows[id], now.rows[id], now.log);
    }
    Snapshot.SameMap(now.rows, was.rows);
  }

  /** A second start-up finds nothing to do, whatever the first one found. */
  lemma BackfillIsIdempotent(first: Db, second: Db, third: Db)
    requires 0 !in first.log && (forall id | id in first.rows :: first.rows[id].id == id)
    requires Backfilled(first, second) && Backfilled(second, third)
    ensures third == second
  {
    forall id | id in second.rows ensures second.rows[id].revision > 0 {
      RevisedAfter(first, second, id);
    }
    NothingMissing(second, third);
  }
}
