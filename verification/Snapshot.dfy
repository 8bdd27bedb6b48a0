/** Shared by the two bulk transactions: the locked snapshot, the replacement index, and staged writes. */
module Snapshot {
  import opened Wrappers
  import opened ServerConfig
  import opened Database
  import opened Evolution
  import opened Selection
  import opened Store

  /** The open rows of an account in id order. */
  ghost predicate IsSnapshot(db: Db, user: UserId, configs: seq<Row>) {
    && Ids(configs) == OpenRows(db, user) && |configs| == |OpenRows(db, user)|
    && (forall i :: 0 <= i < |configs| ==> configs[i].id in db.rows && db.rows[configs[i].id] == configs[i])
    && (forall i, j :: 0 <= i < j < |configs| ==> configs[i].id < configs[j].id)
  }

  /** The same without the order. */
  ghost predicate Covers(db: Db, user: UserId, configs: seq<Row>) {
    && Ids(configs) == OpenRows(db, user)
    && forall i :: 0 <= i < |configs| ==> configs[i].id in db.rows && db.rows[configs[i].id] == configs[i]
  }

  /** `WHERE user_id = ? AND state <> 'purged' ORDER BY id` */
  method ListOpen(tables: Tables, user: UserId) returns (configs: seq<Row>)
    requires tables.Valid()
    ensures IsSnapshot(tables.Value(), user, configs)
  {
    configs := Select(tables.rows, (row: Row) => OpenFor(row, user), (row: Row) => row.id, |tables.rows| + 1);
    ghost var open := OpenRows(tables.Value(), user);
    SelectionSize(
      tables.rows, (row: Row) => OpenFor(row, user), (row: Row) => row.id, |tables.rows| + 1, configs, open);
    Subset(open, tables.rows.Keys);
    Subset(Ids(configs), open);
  }

  /** `now` is `base` with the staged rows saved and logged. */
  ghost predicate Staged(base: Db, now: Db, staged: map<RowId, Row>) {
    DistinctRevisions(staged) && now == SaveAll(base, staged)
  }

  lemma AddNone<K, V>(m: map<K, V>, n: map<K, V>)
    requires n == map[]
    ensures m + n == m
  {
  }

  lemma StageNone(base: Db, staged: map<RowId, Row>)
    requires staged == map[]
    ensures Staged(base, base, staged)
  {
    assert LogOf(staged).Keys == {};
    AddNone(base.rows, staged);
    AddNone(base.log, LogOf(staged));
  }

  lemma SameMap<K, V>(a: map<K, V>, b: map<K, V>)
    requires forall k :: k in a <==> k in b
    requires forall k | k in a :: a[k] == b[k]
    ensures a == b
  {
  }

  /** Membership in the log of one more row, one revision at a time. */
  lemma InLogOfMore(staged: map<RowId, Row>, row: Row, more: map<RowId, Row>, r: Revision)
    requires DistinctRevisions(staged) && DistinctRevisions(more) && row.id !in staged && more == staged[row.id := row]
    ensures r in LogOf(more) <==> r in LogOf(staged) || r == row.revision
    ensures r in LogOf(staged) ==> LogOf(more)[r] == LogOf(staged)[r]
  {
    assert row.id in more && more[row.id] == row;
    if r in LogOf(more) {
      var id :| id in more && more[id].revision == r;
      assert id == row.id || (id in staged && staged[id] == more[id]);
    }
    if r in LogOf(staged) {
      var id :| id in staged && staged[id].revision == r;
      assert more[id].revision == r;
    }
  }

  lemma LogOfOneMore(staged: map<RowId, Row>, row: Row, more: map<RowId, Row>)
    requires DistinctRevisions(staged) && DistinctRevisions(more) && row.id !in staged && more == staged[row.id := row]
    requires row.revision !in LogOf(staged)
    ensures LogOf(more) == LogOf(staged)[row.revision := ChangeOf(row)]
  {
    var was, now := LogOf(staged), LogOf(more);
    forall r ensures r in now <==> r in was[row.revision := ChangeOf(row)] {
      if r >= 0 {
        InLogOfMore(staged, row, more, r);
      }
    }
    forall r | r in now ensures now[r] == was[row.revision := ChangeOf(row)][r] {
      InLogOfMore(staged, row, more, r);
      assert row.id in more && more[row.id] == row;
    }
    SameMap(now, was[row.revision := ChangeOf(row)]);
  }

  lemma AddMore<K, V>(m: map<K, V>, n: map<K, V>, k: K, v: V)
    ensures m + n[k := v] == (m + n)[k := v]
  {
  }

  lemma SavedWithLog(base: Db, rows: map<RowId, Row>, log: map<Revision, Change>)
    requires DistinctRevisions(rows) && LogOf(rows) == log
    ensures SaveAll(base, rows) == base.(rows := base.rows + rows, log := base.log + log)
  {
  }

  lemma StillDistinct(staged: map<RowId, Row>, row: Row, more: map<RowId, Row>)
    requires DistinctRevisions(staged) && row.id !in staged && more == staged[row.id := row]
    requires forall id | id in staged :: staged[id].revision != row.revision
    ensures DistinctRevisions(more) && row.revision !in LogOf(staged)
  {
  }

  lemma StageOne(base: Db, now: Db, staged: map<RowId, Row>, row: Row, more: map<RowId, Row>)
    requires Staged(base, now, staged) && row.id !in staged && more == staged[row.id := row]
    requires forall id | id in staged :: staged[id].revision != row.revision
    ensures Staged(base, Saved(now, row), more)
  {
    StillDistinct(staged, row, more);
    LogOfOneMore(staged, row, more);
    var log := LogOf(staged);
    SavedWithLog(base, staged, log);
    SavedWithLog(base, more, log[row.revision := ChangeOf(row)]);
    AddMore(base.rows, staged, row.id, row);
    AddMore(base.log, log, row.revision, ChangeOf(row));
  }

  ghost function RevisionsOf(rows: map<RowId, Row>): map<RowId, Revision> {
    map id | id in rows :: rows[id].revision
  }

  /** Staged rows are the planned rows, stamped with the revisions they took. */
  ghost predicate StagesPlan(staged: map<RowId, Row>, planned: map<RowId, Row>) {
    && staged.Keys == planned.Keys
    && forall id | id in planned :: IsStampOf(staged[id], planned[id])
  }

  predicate IsStampOf(row: Row, planned: Row) {
    row == planned.(revision := row.revision)
  }

  lemma StagesEach(configs: seq<Row>, staged: map<RowId, Row>, planned: map<RowId, Row>)
    requires staged.Keys == Ids(configs) && planned.Keys == Ids(configs)
    requires forall k :: 0 <= k < |configs| ==>
      configs[k].id in Ids(configs) && IsStampOf(staged[configs[k].id], planned[configs[k].id])
    ensures StagesPlan(staged, planned)
  {
  }

  lemma StampIsStaged(staged: map<RowId, Row>, planned: map<RowId, Row>, revisions: map<RowId, Revision>)
    requires DistinctRevisions(staged) && StagesPlan(staged, planned) && revisions == RevisionsOf(staged)
    ensures Injective(revisions) && revisions.Keys == planned.Keys && Stamp(planned, revisions) == staged
  {
    forall id | id in planned ensures Stamp(planned, revisions)[id] == staged[id] {
    }
    SameMap(Stamp(planned, revisions), staged);
  }

  ghost function WithToken(db: Db, user: UserId, newToken: bool): Db
    requires newToken ==> user in db.accounts
  {
    if newToken then db.(accounts := db.accounts[user := NextToken(db.accounts[user])]) else db
  }

  lemma SavingExecutes(
      base: Db, user: UserId, planned: map<RowId, Row>, newToken: bool, revisions: map<RowId, Revision>,
      rows: map<RowId, Row>)
    requires planned.Keys <= revisions.Keys && Injective(revisions) && Stamp(planned, revisions) == rows
    requires DistinctRevisions(rows) && user in base.accounts
    ensures Execute(base, user, Plan.Save(planned, newToken), revisions) ==
      WithToken(SaveAll(base, rows), user, newToken)
  {
    var plan := Plan.Save(planned, newToken);
    if newToken {
      assert Execute(base, user, plan, revisions) == WithToken(SaveAll(base, Stamp(planned, revisions)), user, true);
    } else {
      assert Execute(base, user, plan, revisions) == SaveAll(base, Stamp(planned, revisions));
    }
  }

  lemma PlanExecutes(
      base: Db, now: Db, staged: map<RowId, Row>, planned: map<RowId, Row>, newToken: bool, user: UserId,
      revisions: map<RowId, Revision>)
    requires Staged(base, now, staged) && StagesPlan(staged, planned) && revisions == RevisionsOf(staged)
    requires user in base.accounts
    ensures Stampable(Plan.Save(planned, newToken), revisions)
    ensures Execute(base, user, Plan.Save(planned, newToken), revisions) == WithToken(now, user, newToken)
  {
    StampIsStaged(staged, planned, revisions);
    SavingExecutes(base, user, planned, newToken, revisions, staged);
  }

  lemma AboveIsFresh(base: Db, user: UserId, staged: map<RowId, Row>)
    requires forall id | id in staged :: staged[id].revision > 0 && forall r | r in base.log :: r < staged[id].revision
    ensures forall id | id in RevisionsOf(staged) :: FreshRevision(base, user, RevisionsOf(staged)[id])
  {
  }

  /** Staging a whole plan above every logged revision is one valid step. */
  lemma StagedCommits(
      base: Db, now: Db, staged: map<RowId, Row>, planned: map<RowId, Row>, newToken: bool, user: UserId, op: Op,
      time: Time)
    returns (step: Step)
    requires WellFormed(base) && Staged(base, now, staged) && StagesPlan(staged, planned)
    requires ValidOp(base, op) && Representable(time) && PlanOf(base, user, op, time) == Plan.Save(planned, newToken)
    requires user in base.accounts
    requires forall id | id in staged :: staged[id].revision > 0 && forall r | r in base.log :: r < staged[id].revision
    ensures step == Locked(user, op, RevisionsOf(staged), time) && ValidStep(base, step)
    ensures Next(base, step) == WithToken(now, user, newToken) && WellFormed(WithToken(now, user, newToken))
  {
    var revisions := RevisionsOf(staged);
    step := Locked(user, op, revisions, time);
    PlanExecutes(base, now, staged, planned, newToken, user, revisions);
    AboveIsFresh(base, user, staged);
    StepExecutes(base, user, op, revisions, time, Plan.Save(planned, newToken));
    StepIsLawful(base, step);
  }

  // ---------------------------------------------------------------- the replacement index

  function IdSet(ids: seq<RowId>): set<RowId> {
    set id | id in ids
  }

  lemma {:induction false} DistinctCount(ids: seq<RowId>)
    requires DistinctIds(ids)
    ensures |IdSet(ids)| == |ids|
  {
    if ids != [] {
      var init := ids[..|ids| - 1];
      DistinctCount(init);
      assert IdSet(ids) == IdSet(init) + {ids[|ids| - 1]};
    }
  }

  /** Equal length, no duplicates and every open row named: then the list is the exact snapshot. */
  lemma CountedSnapshot(db: Db, user: UserId, configs: seq<Row>, ids: seq<RowId>)
    requires IsSnapshot(db, user, configs) && |configs| == |ids| && DistinctIds(ids)
    requires forall i :: 0 <= i < |configs| ==> configs[i].id in ids
    ensures ExactSnapshot(db, user, ids)
  {
    DistinctCount(ids);
    forall id | id in OpenRows(db, user) ensures id in ids {
      assert id in Ids(configs);
    }
    Subset(OpenRows(db, user), IdSet(ids));
  }

  lemma ExactSnapshotCounts(db: Db, user: UserId, configs: seq<Row>, ids: seq<RowId>)
    requires IsSnapshot(db, user, configs) && ExactSnapshot(db, user, ids)
    ensures |configs| == |ids| && DistinctIds(ids)
    ensures forall i :: 0 <= i < |configs| ==> configs[i].id in ids
  {
    DistinctCount(ids);
    assert IdSet(ids) == OpenRows(db, user);
    forall i | 0 <= i < |configs| ensures configs[i].id in ids {
      assert configs[i].id in Ids(configs);
    }
  }

  lemma ExactCount(db: Db, user: UserId, ids: seq<RowId>)
    requires ExactSnapshot(db, user, ids)
    ensures |ids| == |OpenRows(db, user)|
  {
    DistinctCount(ids);
    assert IdSet(ids) == OpenRows(db, user);
  }

  /** The index a bulk transaction looks replacements up in. */
  ghost predicate Indexes<T>(byId: map<RowId, T>, items: seq<T>, id: T -> RowId, usable: T -> bool) {
    && DistinctIds(IdsOf(items, id))
    && (forall i :: 0 <= i < |items| ==> usable(items[i]) && id(items[i]) in byId && byId[id(items[i])] == items[i])
    && (forall k | k in byId :: k in IdsOf(items, id) && id(byId[k]) == k)
  }

  /** There is an index exactly when every item is usable and no identifier repeats. */
  method IndexItems<T>(items: seq<T>, id: T -> RowId, usable: T -> bool) returns (byId: Option<map<RowId, T>>)
    ensures byId.Some? <==> DistinctIds(IdsOf(items, id)) && forall i :: 0 <= i < |items| ==> usable(items[i])
    ensures byId.Some? ==> Indexes(byId.value, items, id, usable)
  {
    var index: map<RowId, T> := map[];
    for n := 0 to |items|
      invariant Indexes(index, items[..n], id, usable)
    {
      var item := items[n];
      if !usable(item) {
        return None;
      }
      if id(item) in index {
        assert id(item) in IdsOf(items[..n], id);
        assert IdsOf(items[..n], id) == IdsOf(items, id)[..n];
        return None;
      }
      ghost var was := index;
      index := index[id(item) := item];
      IndexOneMore(was, items, id, usable, n, index);
    }
    assert items[..|items|] == items;
    return Some(index);
  }

  lemma IndexOneMore<T>(
      was: map<RowId, T>, items: seq<T>, id: T -> RowId, usable: T -> bool, n: nat, index: map<RowId, T>)
    requires n < |items| && Indexes(was, items[..n], id, usable) && usable(items[n]) && id(items[n]) !in was
    requires index == was[id(items[n]) := items[n]]
    ensures Indexes(index, items[..n + 1], id, usable)
  {
    var before, after := IdsOf(items[..n], id), IdsOf(items[..n + 1], id);
    assert after == before + [id(items[n])];
    forall i | 0 <= i < n ensures before[i] != id(items[n]) {
      assert id(items[..n][i]) in was;
    }
  }

  // ---------------------------------------------------------------- rows written one after another

  /** The database after the rows have been saved and logged in order. */
  ghost function WriteAll(base: Db, written: seq<Row>): Db {
    if written == [] then base else
    var last := |written| - 1;
    Saved(WriteAll(base, written[..last]), written[last])
  }

  /** The revisions the transaction has drawn since `first`, one for each row. */
  ghost predicate Drawn(written: seq<Row>, first: Revision) {
    forall i :: 0 <= i < |written| ==> written[i].revision == first + 1 + i
  }

  /** `tx.Save` and the change of one row of a bulk transaction. */
  method WriteNext(tables: Tables, row: Row, now: Time, ghost base: Db, ghost written: seq<Row>) returns (saved: Row)
    requires tables.SequencesAhead() && row.id <= tables.lastRow && tables.Value() == WriteAll(base, written)
    modifies tables`rows, tables`log, tables`lastRevision
    ensures saved == row.(updatedAt := now, revision := tables.lastRevision)
    ensures tables.lastRevision == old(tables.lastRevision) + 1 && tables.SequencesAhead()
    ensures tables.Value() == WriteAll(base, written + [saved])
  {
    ghost var current := tables.Value();
    saved := tables.SaveAndAppend(row, now);
    assert (written + [saved])[..|written|] == written;
    assert tables.Value() == Saved(current, saved);
  }

  ghost predicate DistinctRows(written: seq<Row>) {
    forall i, j :: 0 <= i < j < |written| ==>
      written[i].id != written[j].id && written[i].revision != written[j].revision
  }

  lemma LastIsNew(written: seq<Row>, last: nat)
    requires DistinctRows(written) && last + 1 == |written|
    ensures DistinctRows(written[..last]) && written[last].id !in ItemsById(written[..last])
    ensures forall id | id in ItemsById(written[..last]) ::
      ItemsById(written[..last])[id].revision != written[last].revision
  {
    var init := written[..last];
    ItemsByIdContains(init);
    forall id | id in ItemsById(init)
      ensures id != written[last].id && ItemsById(init)[id].revision != written[last].revision
    {
      var i :| 0 <= i < |init| && init[i].id == id;
      assert init[i] == written[i];
    }
  }

  /** Rows written one after another are a staged write. */
  lemma {:induction false} WrittenIsStaged(base: Db, written: seq<Row>)
    requires DistinctRows(written)
    ensures Staged(base, WriteAll(base, written), ItemsById(written))
  {
    if written == [] {
      StageNone(base, ItemsById(written));
    } else {
      var last := |written| - 1;
      LastIsNew(written, last);
      WrittenIsStaged(base, written[..last]);
      StageOne(base, WriteAll(base, written[..last]), ItemsById(written[..last]), written[last], ItemsById(written));
    }
  }

  /** The staged rows by the place at which they were written. */
  lemma WrittenRows(written: seq<Row>, first: Revision)
    requires DistinctRows(written) && Drawn(written, first)
    ensures ItemsById(written).Keys == Ids(written)
    ensures forall i :: 0 <= i < |written| ==>
      written[i].id in ItemsById(written) && ItemsById(written)[written[i].id] == written[i]
    ensures forall id | id in ItemsById(written) :: ItemsById(written)[id].revision > first
  {
    ItemsByIdContains(written);
    forall id | id in ItemsById(written) ensures ItemsById(written)[id].revision > first {
      var i :| 0 <= i < |written| && written[i].id == id;
    }
  }

  lemma SnapshotIsKnown(base: Db, user: UserId, configs: seq<Row>, lastRevision: Revision, lastRow: RowId)
    requires WellFormed(base) && Ahead(base.log, lastRevision, lastRow) && IsSnapshot(base, user, configs)
    ensures forall i :: 0 <= i < |configs| ==> configs[i].id <= lastRow
  {
    forall i | 0 <= i < |configs| ensures configs[i].id <= lastRow {
      KnownId(base, configs[i].id, lastRevision, lastRow);
    }
  }
}
