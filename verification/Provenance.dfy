/**
  Where the contents of a row come from: what any step does to any row, field by field, and over whole
  runs that a ciphertext is always one that somebody sent for that row, kept through delete and restore.
 */
module Provenance {
  import opened Wrappers
  import opened Text
  import opened VectorClock
  import opened ServerConfig
  import opened Database
  import opened Evolution
  import opened Lifecycle
  import opened RunSafety
  import opened Outcomes

  // ---------------------------------------------------------------- the effect of one step on one row

  ghost predicate UploadedTo(was: Row, row: Row, asset: string, u: UploadInput, now: Time) {
    && was.state == Active && StrictlyNewer(u.clock, was.clock)
    && row == was.(
         asset := asset, blob := u.blob, clock := u.clock, updatedAt := now,
         fingerprint := if u.fingerprint == "" then was.fingerprint else u.fingerprint)
  }

  /** What a request does to the row it writes, revision aside. */
  ghost predicate RequestEffect(request: Request, was: Row, row: Row, now: Time) {
    match request
    case Upload(u) => UploadedTo(was, row, was.asset, u, now)
    case Delete(m, days) =>
      && was.state != Purged && IsJoin(m.clock, was.clock, row.clock)
      && row == was.(
           state := Deleted, clock := row.clock, deletedBy := Trim(m.device), lastOp := m.op, updatedAt := now,
           deletedAt := if was.state == Active then Some(now) else was.deletedAt,
           purgeAfter := if was.state == Active then Some(now + days * DAY) else was.purgeAfter)
    case Restore(m) =>
      && was.state == Deleted && StrictlyNewer(m.clock, was.clock)
      && row == was.(
           state := Active, clock := m.clock, deletedAt := None, purgeAfter := None, deletedBy := "",
           lastOp := m.op, updatedAt := now)
    case Purge(m) =>
      && was.state == Deleted && StrictlyNewer(m.clock, was.clock)
      && row == was.(
           state := Purged, clock := m.clock, blob := [], purgeAfter := None, lastOp := m.op, updatedAt := now)
    case Cleanup(operation) =>
      && was.state == Deleted && was.purgeAfter.Some? && was.purgeAfter.value <= now && operation.Ok?
      && row == was.(
           state := Purged, clock := row.clock, blob := [], purgeAfter := None, lastOp := operation.value,
           updatedAt := now)
  }

  /** What a transaction does to a row that was there, revision aside. */
  ghost predicate Effect(user: UserId, op: Op, was: Row, row: Row, now: Time) {
    && user == was.user
    && match op
       case Mutate(asset, request) => asset == was.asset && RequestEffect(request, was, row, now)
       case UploadById(id, u) =>
         id == was.id && UploadedTo(was, row, if was.asset == "" then u.asset else was.asset, u, now)
       case Rotate(items, verify) =>
         exists i :: (
           && 0 <= i < |items| && items[i].id == was.id && was.clock == items[i].expectedClock
           && row == was.(blob := items[i].blob, updatedAt := now))
       case Migrate(items, sha256) =>
         exists i :: (
           && 0 <= i < |items| && items[i].id == was.id && was.clock == items[i].expectedClock
           && sha256(was.blob) == items[i].expectedDigest
           && row == was.(blob := items[i].blob, clock := items[i].nextClock, updatedAt := now))
       case _ => false
  }

  lemma DeleteHasEffect(was: Row, m: AssetMutation, days: int, now: Time)
    requires Shape(was) && Parses(m.clock) && DecideDelete(was, m, days, now).Write?
    ensures RequestEffect(Delete(m, days), was, DecideDelete(was, m, days, now).row.(updatedAt := now), now)
  {
    DeleteWrites(was, m, days, now);
    DeleteDecision(was, m, days, now);
  }

  lemma CleanupHasEffect(was: Row, operation: Result<string>, now: Time)
    requires Shape(was) && Representable(now) && DecideCleanup(was, operation, now).Write?
    ensures RequestEffect(Cleanup(operation), was, DecideCleanup(was, operation, now).row.(updatedAt := now), now)
  {
    CleanupDecides(was, operation, now);
  }

  lemma DecisionHasEffect(was: Row, request: Request, now: Time)
    requires Shape(was) && request.Valid() && Representable(now) && Decide(was, request, now).Write?
    ensures RequestEffect(request, was, Decide(was, request, now).row.(updatedAt := now), now)
  {
    match request
    case Upload(u) => UploadDecision(was, u);
    case Delete(m, days) => DeleteHasEffect(was, m, days, now);
    case Restore(m) => RestoreDecision(was, m);
    case Purge(m) => PurgeDecision(was, m);
    case Cleanup(operation) => CleanupHasEffect(was, operation, now);
  }

  lemma MutationHasEffect(db: Db, user: UserId, asset: string, request: Request, now: Time, id: RowId)
    requires WellFormed(db) && asset != "" && request.Valid() && Representable(now) && id in db.rows
    requires PlanOf(db, user, Mutate(asset, request), now).Save?
    requires id in PlanOf(db, user, Mutate(asset, request), now).rows
    ensures Effect(
      user, Mutate(asset, request), db.rows[id], PlanOf(db, user, Mutate(asset, request), now).rows[id], now)
  {
    MutatedRow(db, user, asset, request, now);
    DecisionHasEffect(db.rows[id], request, now);
  }

  lemma UploadByIdHasEffect(db: Db, user: UserId, target: RowId, u: UploadInput, now: Time, id: RowId)
    requires WellFormed(db) && u.Valid() && id in db.rows
    requires PlanUploadById(db, user, target, u, now).Save? && id in PlanUploadById(db, user, target, u, now).rows
    ensures Effect(user, UploadById(target, u), db.rows[id], PlanUploadById(db, user, target, u, now).rows[id], now)
  {
    var was := db.rows[target];
    assert was.state == Active;
    UploadDecision(was, u);
    LegacyDecision(was, u);
  }

  lemma RotationHasEffect(db: Db, user: UserId, items: seq<RekeyItem>, now: Time, id: RowId)
    requires WellFormed(db) && RotationMatches(db, user, items) && id in OpenRows(db, user)
    ensures exists i :: (
      && 0 <= i < |items| && items[i].id == id && db.rows[id].clock == items[i].expectedClock
      && RekeyedRows(db, user, items, now)[id] == db.rows[id].(blob := items[i].blob, updatedAt := now))
  {
    assert id in RekeyIds(items);
    var i := IndexOf(RekeyIds(items), id);
    assert RekeyMatches(db, items[i]);
  }

  lemma MigrationHasEffect(
      db: Db, user: UserId, items: seq<MigrationItem>, sha256: Bytes -> Digest, now: Time, id: RowId)
    requires WellFormed(db) && MigrationMatches(db, user, items, sha256) && id in OpenRows(db, user)
    ensures exists i :: (
      && 0 <= i < |items| && items[i].id == id && db.rows[id].clock == items[i].expectedClock
      && sha256(db.rows[id].blob) == items[i].expectedDigest
      && MigratedRows(db, user, items, now)[id] ==
           db.rows[id].(blob := items[i].blob, clock := items[i].nextClock, updatedAt := now))
  {
    assert id in MigrationIds(items);
    var i := IndexOf(MigrationIds(items), id);
    assert MoveMatches(db, items[i], sha256);
  }

  lemma PlanHasEffect(db: Db, user: UserId, op: Op, now: Time, id: RowId)
    requires WellFormed(db) && ValidOp(db, op) && Representable(now) && PlanOf(db, user, op, now).Save?
    requires id in db.rows && id in PlanOf(db, user, op, now).rows
    ensures Effect(user, op, db.rows[id], PlanOf(db, user, op, now).rows[id], now)
  {
    match op
    case Create(other, u) =>
    case Mutate(asset, request) => MutationHasEffect(db, user, asset, request, now, id);
    case UploadById(other, u) => UploadByIdHasEffect(db, user, other, u, now, id);
    case Rotate(items, verify) => RotationHasEffect(db, user, items, now, id);
    case Migrate(items, sha256) => MigrationHasEffect(db, user, items, sha256, now, id);
  }

  /** A row that a step changes is changed by its owner's transaction, as that transaction says and not otherwise. */
  lemma StepHasEffect(db: Db, step: Step, id: RowId)
    requires WellFormed(db) && ValidStep(db, step) && id in db.rows && id in Next(db, step).rows
    requires Next(db, step).rows[id] != db.rows[id]
    ensures step.Locked?
    ensures Effect(
      step.user, step.op, db.rows[id], Next(db, step).rows[id].(revision := db.rows[id].revision), step.now)
  {
    ChangedByPlan(db, step, id);
    PlanHasEffect(db, step.user, step.op, step.now, id);
    EffectKeepsRevision(step.user, step.op, db.rows[id], PlanOf(db, step.user, step.op, step.now).rows[id], step.now);
  }

  lemma EffectKeepsRevision(user: UserId, op: Op, was: Row, row: Row, now: Time)
    requires Effect(user, op, was, row, now)
    ensures row.revision == was.revision && row.id == was.id && row.user == was.user
  {
  }

  /** A row that a step creates holds what it was sent. */
  lemma StepCreates(db: Db, step: Step, id: RowId)
    requires WellFormed(db) && ValidStep(db, step) && id !in db.rows && id in Next(db, step).rows
    ensures step.Locked? && step.op.Create? && step.op.id == id
    ensures var u, row := step.op.input, Next(db, step).rows[id];
      row == Row(
        id, step.user, u.asset, u.fingerprint, u.blob, u.clock, Active, None, None, "", "", row.revision, step.now)
  {
    CreatedByPlan(db, step, id);
    var plan := PlanOf(db, step.user, step.op, step.now);
    OnlyCreateAdds(db, step.user, step.op, step.now, id);
  }

  lemma CreatedByPlan(db: Db, step: Step, id: RowId)
    requires ValidStep(db, step) && id !in db.rows && id in Next(db, step).rows
    ensures step.Locked? && PlanOf(db, step.user, step.op, step.now).Save?
    ensures id in PlanOf(db, step.user, step.op, step.now).rows
    ensures Next(db, step).rows[id] ==
      PlanOf(db, step.user, step.op, step.now).rows[id].(revision := step.revisions[id])
  {
  }

  lemma OnlyCreateAdds(db: Db, user: UserId, op: Op, now: Time, id: RowId)
    requires WellFormed(db) && ValidOp(db, op) && PlanOf(db, user, op, now).Save?
    requires id !in db.rows && id in PlanOf(db, user, op, now).rows
    ensures op.Create? && op.id == id
    ensures PlanOf(db, user, op, now).rows[id] == Row(
      id, user, op.input.asset, op.input.fingerprint, op.input.blob, op.input.clock, Active, None, None, "", "", 0, now)
  {
    if op.Mutate? {
      AssetLookup(db, user, op.asset);
    }
  }

  // ---------------------------------------------------------------- over runs

  /** The step brought this ciphertext for this row. */
  ghost predicate Brought(step: Step, row: Row) {
    && step.Locked? && step.user == row.user
    && match step.op
       case Create(id, u) => id == row.id && u.blob == row.blob
       case Mutate(asset, Upload(u)) => asset == row.asset && u.blob == row.blob
       case UploadById(id, u) => id == row.id && u.blob == row.blob
       case Rotate(items, verify) => exists i :: 0 <= i < |items| && items[i].id == row.id && items[i].blob == row.blob
       case Migrate(items, sha256) => exists i :: 0 <= i < |items| && items[i].id == row.id && items[i].blob == row.blob
       case _ => false
  }

  /** A step leaves a row's ciphertext alone, erases it, or brings it. */
  lemma EffectOnBlob(step: Step, was: Row, row: Row)
    requires step.Locked? && Effect(step.user, step.op, was, row, step.now)
    ensures row.blob == was.blob || row.blob == [] || Brought(step, row)
  {
  }

  lemma StepKeepsOrBrings(db: Db, step: Step, id: RowId)
    requires WellFormed(db) && ValidStep(db, step) && id in Next(db, step).rows
    ensures var row := Next(db, step).rows[id];
      (id in db.rows && row.blob == db.rows[id].blob) || row.blob == [] || Brought(step, row)
  {
    var row := Next(db, step).rows[id];
    if id !in db.rows {
      StepCreates(db, step, id);
    } else if row != db.rows[id] {
      StepHasEffect(db, step, id);
      EffectOnBlob(step, db.rows[id], row.(revision := db.rows[id].revision));
    }
  }

  /** Who brought a ciphertext does not change when the row moves on. */
  lemma BroughtStays(step: Step, was: Row, now: Row)
    requires Brought(step, was) && now.blob == was.blob && now.id == was.id && now.user == was.user
    requires was.asset != "" ==> now.asset == was.asset
    requires step.op.Mutate? ==> step.op.asset != ""
    ensures Brought(step, now)
  {
  }

  ghost predicate BroughtDuring(db: Db, steps: seq<Step>, row: Row)
    requires ValidRun(db, steps)
    decreases |steps|
  {
    steps != [] && (Brought(steps[0], row) || BroughtDuring(Next(db, steps[0]), steps[1..], row))
  }

  /** Over any run a row's ciphertext is the one it had at the start, is erased, or was sent for this row on the way. */
  lemma {:induction false} BlobWasSent(db: Db, steps: seq<Step>, id: RowId)
    requires WellFormed(db) && ValidRun(db, steps) && id in After(db, steps).rows
    ensures var row := After(db, steps).rows[id];
      (id in db.rows && row.blob == db.rows[id].blob) || row.blob == [] || BroughtDuring(db, steps, row)
    decreases |steps|
  {
    if steps != [] {
      var next := Next(db, steps[0]);
      StepIsLawful(db, steps[0]);
      BlobWasSent(next, steps[1..], id);
      if id in next.rows {
        StepKeepsOrBrings(db, steps[0], id);
        RunIsLawful(next, steps[1..]);
        FromFirstStep(db, steps[0], next.rows[id], After(db, steps).rows[id]);
      }
    }
  }

  lemma FromFirstStep(db: Db, step: Step, row: Row, last: Row)
    requires ValidStep(db, step) && RowEvolves(row, last)
    ensures Brought(step, row) && last.blob == row.blob ==> Brought(step, last)
  {
    if Brought(step, row) && last.blob == row.blob {
      BroughtStays(step, row, last);
    }
  }

  /** The steps that may replace a row's contents: uploads to it, and its owner's bulk transactions. */
  ghost predicate MayReplace(step: Step, row: Row) {
    && step.Locked? && step.user == row.user
    && match step.op
       case Mutate(asset, request) => asset == row.asset && request.Upload?
       case UploadById(id, u) => id == row.id
       case Rotate(items, verify) => true
       case Migrate(items, sha256) => true
       case _ => false
  }

  ghost predicate SameContents(was: Row, now: Row) {
    && now.id == was.id && now.user == was.user && now.asset == was.asset
    && now.blob == was.blob && now.fingerprint == was.fingerprint
  }

  lemma EffectKeepsContents(step: Step, was: Row, row: Row)
    requires step.Locked? && Effect(step.user, step.op, was, row, step.now) && !MayReplace(step, was)
    ensures row.state == Purged || SameContents(was, row)
  {
  }

  lemma StepKeepsContents(db: Db, step: Step, id: RowId)
    requires WellFormed(db) && ValidStep(db, step) && id in db.rows && id in Next(db, step).rows
    requires !MayReplace(step, db.rows[id]) && Next(db, step).rows[id].state != Purged
    ensures SameContents(db.rows[id], Next(db, step).rows[id])
  {
    var was, row := db.rows[id], Next(db, step).rows[id];
    if row != was {
      StepHasEffect(db, step, id);
      EffectKeepsContents(step, was, row.(revision := was.revision));
    }
  }

  /**
    However often a row is deleted and restored, and whatever else runs: unless somebody uploads to it,
    or its owner rotates or migrates, it keeps the ciphertext, the fingerprint and the identity it had.
   */
  lemma {:induction false} DeletedContentsComeBack(db: Db, steps: seq<Step>, id: RowId)
    requires WellFormed(db) && ValidRun(db, steps) && id in db.rows && id in After(db, steps).rows
    requires forall k :: 0 <= k < |steps| ==> !MayReplace(steps[k], db.rows[id])
    requires After(db, steps).rows[id].state != Purged
    ensures SameContents(db.rows[id], After(db, steps).rows[id])
    decreases |steps|
  {
    if steps != [] {
      var next := Next(db, steps[0]);
      StepIsLawful(db, steps[0]);
      RunIsLawful(next, steps[1..]);
      StaysPresent(db, next, After(db, steps), id);
      assert RowEvolves(next.rows[id], After(db, steps).rows[id]);
      StepKeepsContents(db, steps[0], id);
      SameTarget(db.rows[id], next.rows[id], steps);
      DeletedContentsComeBack(next, steps[1..], id);
    }
  }

  lemma SameTarget(was: Row, now: Row, steps: seq<Step>)
    requires SameContents(was, now) && steps != [] && forall k :: 0 <= k < |steps| ==> !MayReplace(steps[k], was)
    ensures forall k :: 0 <= k < |steps[1..]| ==> !MayReplace(steps[1..][k], now)
  {
    forall k | 0 <= k < |steps[1..]| ensures !MayReplace(steps[1..][k], now) {
      assert steps[1..][k] == steps[k + 1];
    }
  }
}
