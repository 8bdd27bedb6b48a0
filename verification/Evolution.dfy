/** Every valid step keeps the database well-formed and evolves it; so does every run. */
module Evolution {
  import opened Wrappers
  import opened VectorClock
  import opened ServerConfig
  import opened Database

  // ---------------------------------------------------------------- lawful writes

  /** Row by row: an existing row takes a row step, a new one has a fresh identifier. */
  ghost predicate LawfulRow(db: Db, user: UserId, id: RowId, row: Row) {
    && row.id == id && row.user == user && Shape(row)
    && FreshRevision(db, user, row.revision)
    && (if id in db.rows then RowStep(db.rows[id], row) else FreshId(db, id))
  }

  ghost predicate LawfulWrite(db: Db, user: UserId, rows: map<RowId, Row>) {
    && user in db.accounts
    && DistinctRevisions(rows)
    && UniqueAssets(db.rows + rows)
    && forall id | id in rows :: LawfulRow(db, user, id, rows[id])
  }

  lemma RowStepEvolves(was: Row, now: Row)
    requires RowStep(was, now) && was.revision < now.revision
    ensures RowEvolves(was, now)
  {
  }

  /** A new log entry is fresh for the account and belongs to the row that carries its revision. */
  lemma NewEntry(db: Db, user: UserId, rows: map<RowId, Row>, r: Revision)
    requires LawfulWrite(db, user, rows) && r in LogOf(rows)
    ensures LogOf(rows)[r].user == user && FreshRevision(db, user, r)
    ensures LogOf(rows)[r].config in rows && rows[LogOf(rows)[r].config].revision == r
  {
    var id :| id in rows && rows[id].revision == r;
    assert LawfulRow(db, user, id, rows[id]);
  }

  lemma SaveKeepsIndex(db: Db, user: UserId, rows: map<RowId, Row>, id: RowId)
    requires WellFormed(db) && LawfulWrite(db, user, rows)
    requires id in SaveAll(db, rows).rows
    ensures Indexed(SaveAll(db, rows), id)
  {
    var after := SaveAll(db, rows);
    var row := after.rows[id];
    assert id in rows ==> LawfulRow(db, user, id, row);
    assert id in db.rows ==> Indexed(db, id);
    forall r | r in LogOf(rows) ensures LogOf(rows)[r].config == id ==> id in rows && row.revision == r {
      NewEntry(db, user, rows, r);
    }
    forall r | r in after.log && after.log[r].config == id ensures r <= row.revision && after.log[r].user == row.user {
      if r !in LogOf(rows) {
        assert Logged(db, row.user, r);
      }
    }
    if id !in rows && row.revision in LogOf(rows) {
      NewEntry(db, user, rows, row.revision);
    }
  }

  lemma SaveGrowsLog(db: Db, user: UserId, rows: map<RowId, Row>)
    requires LawfulWrite(db, user, rows)
    ensures LogGrows(db, SaveAll(db, rows)) && 0 !in LogOf(rows)
  {
    var added := LogOf(rows);
    forall s | s in added ensures s > 0 && s !in db.log && FreshRevision(db, user, s) && added[s].user == user {
      NewEntry(db, user, rows, s);
    }
    forall r, s | r in db.log && s in added && db.log[r].user == added[s].user ensures r < s {
      assert Logged(db, user, r);
    }
  }

  lemma SaveIsLawful(db: Db, user: UserId, rows: map<RowId, Row>)
    requires WellFormed(db) && LawfulWrite(db, user, rows)
    ensures WellFormed(SaveAll(db, rows)) && Evolves(db, SaveAll(db, rows))
  {
    var after := SaveAll(db, rows);
    SaveGrowsLog(db, user, rows);
    forall id | id in after.rows
      ensures after.rows[id].id == id && after.rows[id].user in after.accounts && Shape(after.rows[id])
      ensures Indexed(after, id)
    {
      SaveKeepsIndex(db, user, rows, id);
      assert id in rows ==> LawfulRow(db, user, id, rows[id]);
    }
    LogGrowthKeepsAcks(db, after);
    forall id | id in db.rows && id in after.rows ensures RowEvolves(db.rows[id], after.rows[id]) {
      if id in rows {
        assert LawfulRow(db, user, id, rows[id]) && Indexed(db, id);
        assert Logged(db, user, db.rows[id].revision);
        RowStepEvolves(db.rows[id], rows[id]);
      }
    }
    forall id | id in after.rows && id !in db.rows ensures FreshId(db, id) {
      assert LawfulRow(db, user, id, rows[id]);
    }
  }

  lemma LogGrowthKeepsAcks(was: Db, now: Db)
    requires LogGrows(was, now) && AcksBounded(was) && now.acks == was.acks
    ensures AcksBounded(now)
  {
    forall key | key in now.acks && now.acks[key] != 0
      ensures exists r: Revision :: Logged(now, key.0, r) && r >= now.acks[key]
    {
      var r: Revision :| Logged(was, key.0, r) && r >= was.acks[key];
      assert Logged(now, key.0, r);
    }
  }

  // ---------------------------------------------------------------- every plan is lawful

  lemma AssetLookup(db: Db, user: UserId, asset: string)
    requires WellFormed(db) && asset != ""
    ensures FindByAsset(db, user, asset).Some? ==>
      var row := FindByAsset(db, user, asset).value;
      Holds(db, row.id, user, asset) && db.rows[row.id] == row
    ensures forall id :: Holds(db, id, user, asset) ==> FindByAsset(db, user, asset) == Some(db.rows[id])
  {
  }

  lemma StampedStep(was: Row, now: Row, revision: Revision, time: Time)
    requires RowStep(was, now)
    ensures RowStep(was, now.(revision := revision, updatedAt := time))
  {
  }

  /** Saving one existing row, possibly binding it to an asset nobody else holds. */
  lemma SingleIsLawful(db: Db, user: UserId, now: Row, revisions: map<RowId, Revision>)
    requires WellFormed(db) && now.id in db.rows && db.rows[now.id].user == user && RowStep(db.rows[now.id], now)
    requires now.id in revisions && Injective(revisions) && FreshRevision(db, user, revisions[now.id])
    requires now.asset == db.rows[now.id].asset || FindByAsset(db, user, now.asset).None?
    ensures LawfulWrite(db, user, Stamp(map[now.id := now], revisions))
  {
    var row := now.(revision := revisions[now.id]);
    assert Stamp(map[now.id := now], revisions) == map[row.id := row];
    StampedIsLawful(db, user, now, row);
    OneRowKeepsUnique(db, row);
    OneIsLawful(db, user, row);
  }

  lemma StampedIsLawful(db: Db, user: UserId, now: Row, row: Row)
    requires now.id in db.rows && db.rows[now.id].user == user && RowStep(db.rows[now.id], now)
    requires row == now.(revision := row.revision) && FreshRevision(db, user, row.revision)
    ensures LawfulRow(db, user, row.id, row)
  {
    StampedStep(db.rows[now.id], now, row.revision, now.updatedAt);
  }

  lemma OneIsLawful(db: Db, user: UserId, row: Row)
    requires user in db.accounts && LawfulRow(db, user, row.id, row) && UniqueAssets(db.rows[row.id := row])
    ensures LawfulWrite(db, user, map[row.id := row])
  {
    assert db.rows + map[row.id := row] == db.rows[row.id := row];
  }

  lemma OneRowKeepsUnique(db: Db, row: Row)
    requires WellFormed(db) && row.id in db.rows && db.rows[row.id].user == row.user
    requires row.asset == db.rows[row.id].asset || FindByAsset(db, row.user, row.asset).None?
    ensures UniqueAssets(db.rows[row.id := row])
  {
    forall id | id in db.rows && db.rows[id].user == row.user && db.rows[id].asset == row.asset && row.asset != ""
      ensures id == row.id
    {
      assert Holds(db, id, row.user, row.asset);
    }
  }

  lemma LegacyIsRowStep(row: Row, u: UploadInput)
    requires Shape(row) && row.asset == "" && u.Valid() && DecideLegacy(row, u).Write?
    ensures RowStep(row, DecideLegacy(row, u).row)
  {
  }

  /** A first upload of an asset nobody holds. */
  lemma NewRowIsLawful(db: Db, user: UserId, id: RowId, u: UploadInput, revisions: map<RowId, Revision>, now: Time)
    requires WellFormed(db) && user in db.accounts && FreshId(db, id) && u.Valid()
    requires u.asset == "" || FindByAsset(db, user, u.asset).None?
    requires id in revisions && Injective(revisions) && FreshRevision(db, user, revisions[id])
    ensures LawfulWrite(db, user, Stamp(map[id := NewRow(user, id, u, now)], revisions))
  {
    var created := NewRow(user, id, u, now);
    var row := created.(revision := revisions[id]);
    assert Stamp(map[id := created], revisions) == map[id := row];
    forall other | other in db.rows && db.rows[other].user == user && db.rows[other].asset == u.asset
      ensures u.asset == ""
    {
      assert Holds(db, other, user, u.asset);
    }
    assert UniqueAssets(db.rows[id := row]);
    OneIsLawful(db, user, row);
  }

  lemma CreateIsLawful(db: Db, user: UserId, id: RowId, u: UploadInput, revisions: map<RowId, Revision>, now: Time)
    requires WellFormed(db) && ValidStep(db, Locked(user, Create(id, u), revisions, now))
    requires PlanOf(db, user, Create(id, u), now).Save?
    ensures LawfulWrite(db, user, Stamp(map[id := NewRow(user, id, u, now)], revisions))
  {
    NewRowIsLawful(db, user, id, u, revisions, now);
  }

  lemma MutateIsLawful(
      db: Db, user: UserId, asset: string, request: Request, revisions: map<RowId, Revision>, now: Time)
    requires WellFormed(db) && ValidStep(db, Locked(user, Mutate(asset, request), revisions, now))
    requires PlanOf(db, user, Mutate(asset, request), now).Save?
    ensures LawfulWrite(db, user, Stamp(PlanOf(db, user, Mutate(asset, request), now).rows, revisions))
  {
    AssetLookup(db, user, asset);
    var row := FindByAsset(db, user, asset).value;
    DecisionIsRowStep(row, request, now);
    var next := Decide(row, request, now).row;
    StampedStep(row, next, next.revision, now);
    SingleIsLawful(db, user, next.(updatedAt := now), revisions);
  }

  lemma UploadByIdIsLawful(db: Db, user: UserId, id: RowId, u: UploadInput, revisions: map<RowId, Revision>, now: Time)
    requires WellFormed(db) && ValidStep(db, Locked(user, UploadById(id, u), revisions, now))
    requires PlanOf(db, user, UploadById(id, u), now).Save?
    ensures LawfulWrite(db, user, Stamp(PlanOf(db, user, UploadById(id, u), now).rows, revisions))
  {
    var row := db.rows[id];
    if row.asset != "" {
      UploadIsRowStep(row, u);
      StampedStep(row, DecideUpload(row, u).row, row.revision, now);
      SingleIsLawful(db, user, DecideUpload(row, u).row.(updatedAt := now), revisions);
    } else {
      LegacyIsRowStep(row, u);
      StampedStep(row, DecideLegacy(row, u).row, row.revision, now);
      SingleIsLawful(db, user, DecideLegacy(row, u).row.(updatedAt := now), revisions);
    }
  }

  /** Replacing the whole open snapshot, as both bulk transactions do. */
  lemma BulkIsLawful(db: Db, user: UserId, rows: map<RowId, Row>, revisions: map<RowId, Revision>)
    requires WellFormed(db) && user in db.accounts
    requires rows.Keys == OpenRows(db, user) && rows.Keys <= revisions.Keys && Injective(revisions)
    requires forall id | id in revisions :: FreshRevision(db, user, revisions[id])
    requires forall id | id in rows :: RowStep(db.rows[id], rows[id]) && rows[id].asset == db.rows[id].asset
    ensures LawfulWrite(db, user, Stamp(rows, revisions))
  {
    var stamped := Stamp(rows, revisions);
    forall id | id in stamped ensures LawfulRow(db, user, id, stamped[id]) {
      StampedStep(db.rows[id], rows[id], revisions[id], rows[id].updatedAt);
    }
  }

  lemma RekeyIsRowStep(db: Db, user: UserId, items: seq<RekeyItem>, now: Time, id: RowId)
    requires WellFormed(db) && RotationMatches(db, user, items) && id in OpenRows(db, user)
    ensures RowStep(db.rows[id], RekeyedRows(db, user, items, now)[id])
    ensures RekeyedRows(db, user, items, now)[id].asset == db.rows[id].asset
  {
    assert id in RekeyIds(items);
    assert RekeyMatches(db, items[IndexOf(RekeyIds(items), id)]);
  }

  lemma RotateIsLawful(db: Db, user: UserId, items: seq<RekeyItem>, revisions: map<RowId, Revision>, now: Time)
    requires WellFormed(db) && user in db.accounts && RotationMatches(db, user, items)
    requires OpenRows(db, user) <= revisions.Keys && Injective(revisions)
    requires forall id | id in revisions :: FreshRevision(db, user, revisions[id])
    ensures LawfulWrite(db, user, Stamp(RekeyedRows(db, user, items, now), revisions))
  {
    var rows := RekeyedRows(db, user, items, now);
    forall id | id in rows ensures RowStep(db.rows[id], rows[id]) && rows[id].asset == db.rows[id].asset {
      RekeyIsRowStep(db, user, items, now, id);
    }
    BulkIsLawful(db, user, rows, revisions);
  }

  lemma MigrateIsLawful(
      db: Db, user: UserId, items: seq<MigrationItem>, sha256: Bytes -> Digest, revisions: map<RowId, Revision>,
      now: Time)
    requires WellFormed(db) && user in db.accounts && MigrationMatches(db, user, items, sha256)
    requires forall i :: 0 <= i < |items| ==> items[i].Valid()
    requires OpenRows(db, user) <= revisions.Keys && Injective(revisions)
    requires forall id | id in revisions :: FreshRevision(db, user, revisions[id])
    ensures LawfulWrite(db, user, Stamp(MigratedRows(db, user, items, now), revisions))
  {
    var rows := MigratedRows(db, user, items, now);
    forall id | id in rows ensures RowStep(db.rows[id], rows[id]) && rows[id].asset == db.rows[id].asset {
      assert id in MigrationIds(items);
      var item := items[IndexOf(MigrationIds(items), id)];
      assert MoveMatches(db, item, sha256) && item.Valid();
      NewerIsPositive(item.nextClock, item.expectedClock);
    }
    BulkIsLawful(db, user, rows, revisions);
  }

  lemma PlanIsLawful(db: Db, user: UserId, op: Op, revisions: map<RowId, Revision>, now: Time)
    requires WellFormed(db) && ValidStep(db, Locked(user, op, revisions, now))
    requires PlanOf(db, user, op, now).Save?
    ensures LawfulWrite(db, user, Stamp(PlanOf(db, user, op, now).rows, revisions))
  {
    match op
    case Create(id, u) => CreateIsLawful(db, user, id, u, revisions, now);
    case Mutate(asset, request) => MutateIsLawful(db, user, asset, request, revisions, now);
    case UploadById(id, u) => UploadByIdIsLawful(db, user, id, u, revisions, now);
    case LegacyDelete(id) =>
    case Rotate(items, verify) => RotateIsLawful(db, user, items, revisions, now);
    case Migrate(items, sha256) => MigrateIsLawful(db, user, items, sha256, revisions, now);
  }

  // ---------------------------------------------------------------- what a step does, given its plan

  lemma StepExecutes(db: Db, user: UserId, op: Op, revisions: map<RowId, Revision>, now: Time, plan: Plan)
    requires PlanOf(db, user, op, now) == plan
    requires ValidOp(db, op) && Representable(now) && Stampable(plan, revisions)
    requires plan.Save? ==> forall id | id in revisions :: FreshRevision(db, user, revisions[id])
    ensures ValidStep(db, Locked(user, op, revisions, now))
    ensures plan.Save? && plan.newToken ==> user in db.accounts
    ensures Next(db, Locked(user, op, revisions, now)) == Execute(db, user, plan, revisions)
  {
  }

  lemma SavingStep(db: Db, user: UserId, op: Op, revisions: map<RowId, Revision>, now: Time, plan: Plan)
    requires PlanOf(db, user, op, now) == plan && plan.Save?
    requires ValidStep(db, Locked(user, op, revisions, now))
    ensures Stampable(plan, revisions) && (plan.newToken ==> user in db.accounts)
    ensures forall id | id in revisions :: FreshRevision(db, user, revisions[id])
    ensures Next(db, Locked(user, op, revisions, now)) == Execute(db, user, plan, revisions)
  {
  }

  /** The row a one-row plan leaves behind. */
  lemma OneRowAfter(db: Db, user: UserId, row: Row, revisions: map<RowId, Revision>)
    requires row.id in revisions && Injective(revisions)
    ensures var after := Execute(db, user, Plan.Save(map[row.id := row], false), revisions);
      row.id in after.rows && after.rows[row.id] == row.(revision := revisions[row.id])
  {
    var saved := row.(revision := revisions[row.id]);
    assert Stamp(map[row.id := row], revisions) == map[row.id := saved];
    SavedRow(db, saved);
  }

  lemma SavedRow(db: Db, row: Row)
    requires DistinctRevisions(map[row.id := row])
    ensures row.id in SaveAll(db, map[row.id := row]).rows && SaveAll(db, map[row.id := row]).rows[row.id] == row
  {
    var after := SaveAll(db, map[row.id := row]);
    assert after.rows == db.rows + map[row.id := row];
  }

  // ---------------------------------------------------------------- steps and runs

  lemma EvolvesReflexive(db: Db)
    ensures Evolves(db, db)
  {
    forall id | id in db.rows ensures RowEvolves(db.rows[id], db.rows[id]) {
    }
  }

  /** Removing rows and changing accounts disturbs nothing that remains. */
  lemma RemovalIsLawful(db: Db, ids: set<RowId>)
    requires WellFormed(db)
    ensures WellFormed(db.(rows := db.rows - ids)) && Evolves(db, db.(rows := db.rows - ids))
  {
    var after := db.(rows := db.rows - ids);
    forall id | id in after.rows ensures Indexed(after, id) {
      assert Indexed(db, id);
    }
    LogGrowthKeepsAcks(db, after);
  }

  lemma AccountIsLawful(db: Db, user: UserId, account: Account)
    requires WellFormed(db)
    ensures WellFormed(db.(accounts := db.accounts[user := account]))
    ensures Evolves(db, db.(accounts := db.accounts[user := account]))
  {
    var after := db.(accounts := db.accounts[user := account]);
    forall id | id in after.rows ensures Indexed(after, id) {
      assert Indexed(db, id);
    }
    LogGrowthKeepsAcks(db, after);
  }

  lemma AckIsLawful(db: Db, user: UserId, device: string, revision: Revision)
    requires WellFormed(db) && ValidStep(db, Ack(user, device, revision))
    ensures WellFormed(Next(db, Ack(user, device, revision)))
    ensures Evolves(db, Next(db, Ack(user, device, revision)))
  {
    var after := Next(db, Ack(user, device, revision));
    forall id | id in after.rows ensures Indexed(after, id) {
      assert Indexed(db, id);
    }
    forall key | key in after.acks && after.acks[key] != 0
      ensures exists r: Revision :: Logged(after, key.0, r) && r >= after.acks[key]
    {
      var r: Revision :| Logged(db, key.0, r) && r >= after.acks[key];
      assert Logged(after, key.0, r);
    }
  }

  lemma SaveThenAccount(db: Db, user: UserId, rows: map<RowId, Row>, account: Account)
    requires WellFormed(db) && LawfulWrite(db, user, rows)
    ensures var after := SaveAll(db, rows).(accounts := db.accounts[user := account]);
      WellFormed(after) && Evolves(db, after)
  {
    var saved := SaveAll(db, rows);
    SaveIsLawful(db, user, rows);
    AccountIsLawful(saved, user, account);
    EvolvesTransitive(db, saved, saved.(accounts := saved.accounts[user := account]));
  }

  lemma LockedIsLawful(db: Db, user: UserId, op: Op, revisions: map<RowId, Revision>, now: Time)
    requires WellFormed(db) && ValidStep(db, Locked(user, op, revisions, now))
    ensures WellFormed(LockedNext(db, user, op, revisions, now))
    ensures Evolves(db, LockedNext(db, user, op, revisions, now))
  {
    var plan := PlanOf(db, user, op, now);
    if plan.Save? {
      PlanIsLawful(db, user, op, revisions, now);
      var rows := Stamp(plan.rows, revisions);
      if plan.newToken {
        SaveThenAccount(db, user, rows, NextToken(db.accounts[user]));
      } else {
        SaveIsLawful(db, user, rows);
      }
    } else if plan.Drop? {
      RemovalIsLawful(db, {plan.id});
    } else {
      EvolvesReflexive(db);
    }
  }

  /** The invariant is inductive, and every step keeps the guarantee. */
  lemma StepIsLawful(db: Db, step: Step)
    requires WellFormed(db) && ValidStep(db, step)
    ensures WellFormed(Next(db, step)) && Evolves(db, Next(db, step))
  {
    match step
    case Locked(user, op, revisions, now) => LockedIsLawful(db, user, op, revisions, now);
    case Ack(user, device, revision) => AckIsLawful(db, user, device, revision);
    case Collect(ids) => RemovalIsLawful(db, ids);
    case SetAccount(user, account) => AccountIsLawful(db, user, account);
  }

  lemma RowEvolvesTransitive(a: Row, b: Row, c: Row)
    requires RowEvolves(a, b) && RowEvolves(b, c)
    ensures RowEvolves(a, c)
  {
    if c.state != Purged {
      AtMostTransitive(Clock(a.clock), Clock(b.clock), Clock(c.clock));
    }
  }

  lemma LogGrowsTransitive(a: Db, b: Db, c: Db)
    requires LogGrows(a, b) && LogGrows(b, c)
    ensures LogGrows(a, c)
  {
  }

  lemma EvolvesTransitive(a: Db, b: Db, c: Db)
    requires WellFormed(a) && Evolves(a, b) && Evolves(b, c)
    ensures Evolves(a, c)
  {
    LogGrowsTransitive(a, b, c);
    forall id | id in a.rows && id in c.rows ensures RowEvolves(a.rows[id], c.rows[id]) {
      assert Indexed(a, id);
      assert a.rows[id].revision in b.log && b.log[a.rows[id].revision].config == id;
      assert id in b.rows;
      RowEvolvesTransitive(a.rows[id], b.rows[id], c.rows[id]);
    }
    forall id | id in c.rows && id !in a.rows ensures FreshId(a, id) {
      if id !in b.rows {
        assert FreshId(b, id);
      }
    }
  }

  /** A run: a start, and valid steps, each taken from the database the earlier ones produced. */
  ghost predicate ValidRun(db: Db, steps: seq<Step>)
    decreases |steps|
  {
    steps == [] || (ValidStep(db, steps[0]) && ValidRun(Next(db, steps[0]), steps[1..]))
  }

  ghost function After(db: Db, steps: seq<Step>): Db
    requires ValidRun(db, steps)
    decreases |steps|
  {
    if steps == [] then db else After(Next(db, steps[0]), steps[1..])
  }

  /** From a well-formed database every run stays well-formed and evolves the start. */
  lemma {:induction false} RunIsLawful(db: Db, steps: seq<Step>)
    requires WellFormed(db) && ValidRun(db, steps)
    ensures WellFormed(After(db, steps)) && Evolves(db, After(db, steps))
    decreases |steps|
  {
    if steps == [] {
      EvolvesReflexive(db);
    } else {
      var next := Next(db, steps[0]);
      StepIsLawful(db, steps[0]);
      RunIsLawful(next, steps[1..]);
      EvolvesTransitive(db, next, After(db, steps));
    }
  }

  lemma {:induction false} RunsCompose(db: Db, first: seq<Step>, second: seq<Step>)
    requires ValidRun(db, first) && ValidRun(After(db, first), second)
    ensures ValidRun(db, first + second) && After(db, first + second) == After(After(db, first), second)
    decreases |first|
  {
    if first == [] {
      assert first + second == second;
    } else {
      RunsCompose(Next(db, first[0]), first[1..], second);
      assert (first + second)[1..] == first[1..] + second;
    }
  }

  /** A run of one step. */
  lemma OneStepRun(db: Db, step: Step)
    requires ValidStep(db, step)
    ensures ValidRun(db, [step]) && After(db, [step]) == Next(db, step)
  {
    assert [step][1..] == [];
  }

  // ---------------------------------------------------------------- no transaction is ever stuck

  lemma {:induction false} LogHasBound(revisions: set<Revision>) returns (bound: Revision)
    ensures forall r | r in revisions :: r <= bound
  {
    bound := 0;
    if revisions != {} {
      var one :| one in revisions;
      var rest := LogHasBound(revisions - {one});
      bound := if one > rest then one else rest;
      forall r | r in revisions ensures r <= bound {
        assert r == one || r in revisions - {one};
      }
    }
  }

  lemma {:induction false} DrawAbove(ids: set<RowId>, bound: Revision) returns (revisions: map<RowId, Revision>)
    ensures revisions.Keys == ids && Injective(revisions)
    ensures forall id | id in revisions :: bound < revisions[id] <= bound + |ids|
  {
    revisions := map[];
    if ids != {} {
      var one :| one in ids;
      var rest := DrawAbove(ids - {one}, bound);
      revisions := rest[one := bound + |ids|];
    }
  }

  /** Every admissible transaction can be taken in every reachable database, and none blocks the next. */
  lemma EveryTransactionCanCommit(db: Db, user: UserId, op: Op, now: Time) returns (step: Step)
    requires WellFormed(db) && ValidOp(db, op) && Representable(now)
    ensures step.Locked? && step.user == user && step.op == op && step.now == now
    ensures ValidStep(db, step) && WellFormed(Next(db, step))
  {
    var plan := PlanOf(db, user, op, now);
    var bound := LogHasBound(db.log.Keys);
    var revisions := DrawAbove(if plan.Save? then plan.rows.Keys else {}, bound);
    step := Locked(user, op, revisions, now);
    StepExecutes(db, user, op, revisions, now, plan);
    StepIsLawful(db, step);
  }
}
