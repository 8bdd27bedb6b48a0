/** Safety over whole runs: clocks, resurrection, the recovery window, and what can disappear. */
module RunSafety {
  import opened Wrappers
  import opened VectorClock
  import opened ServerConfig
  import opened Database
  import opened Evolution

  /** Which step can have turned row `was` into row `now`. */
  ghost predicate WrittenBy(step: Step, was: Row, now: Row) {
    step.Locked? && PlanWritten(step.user, step.op, step.now, was, now.(revision := was.revision))
  }

  lemma ChangedByPlan(db: Db, step: Step, id: RowId)
    requires ValidStep(db, step)
    requires id in db.rows && id in Next(db, step).rows && Next(db, step).rows[id] != db.rows[id]
    ensures step.Locked? && PlanOf(db, step.user, step.op, step.now).Save?
    ensures id in PlanOf(db, step.user, step.op, step.now).rows
    ensures Next(db, step).rows[id] ==
      PlanOf(db, step.user, step.op, step.now).rows[id].(revision := step.revisions[id])
  {
  }

  lemma MutatedRow(db: Db, user: UserId, asset: string, request: Request, now: Time)
    requires WellFormed(db) && asset != "" && request.Valid() && Representable(now)
    requires PlanOf(db, user, Mutate(asset, request), now).Save?
    ensures FindByAsset(db, user, asset).Some?
    ensures var was := FindByAsset(db, user, asset).value;
      && Holds(db, was.id, user, asset) && db.rows[was.id] == was && Decide(was, request, now).Write?
      && PlanOf(db, user, Mutate(asset, request), now).rows ==
         map[was.id := Decide(was, request, now).row.(updatedAt := now)]
  {
    AssetLookup(db, user, asset);
  }

  /** The only way a row changes is a locked write addressed to it. */
  lemma ChangedRowIsWritten(db: Db, step: Step, id: RowId)
    requires WellFormed(db) && ValidStep(db, step)
    requires id in db.rows && id in Next(db, step).rows && Next(db, step).rows[id] != db.rows[id]
    ensures WrittenBy(step, db.rows[id], Next(db, step).rows[id])
  {
    ChangedByPlan(db, step, id);
    PlanWrites(db, step.user, step.op, step.now, id);
    var was, row := db.rows[id], PlanOf(db, step.user, step.op, step.now).rows[id];
    assert Next(db, step).rows[id].(revision := was.revision) == row by {
      PlannedRevision(step.user, step.op, step.now, was, row);
    }
  }

  lemma PlannedRevision(user: UserId, op: Op, time: Time, was: Row, now: Row)
    requires PlanWritten(user, op, time, was, now)
    ensures now.revision == was.revision
  {
  }

  ghost predicate PlanWritten(user: UserId, op: Op, time: Time, was: Row, now: Row) {
    user == was.user && now.updatedAt == time && now.revision == was.revision &&
    match op
    case Mutate(asset, request) =>
      && asset == was.asset && Decide(was, request, time).Write?
      && now == Decide(was, request, time).row.(updatedAt := time)
    case UploadById(id, u) =>
      && was.id == id && was.state == now.state == Active
      && now.clock == u.clock && StrictlyNewer(now.clock, was.clock)
    case Rotate(items, verify) => Rekeyed(was, now)
    case Migrate(items, sha256) => now.state == was.state && OTC2 <= now.blob && StrictlyNewer(now.clock, was.clock)
    case _ => false
  }

  lemma DecisionKeepsRevision(row: Row, request: Request, now: Time)
    requires Decide(row, request, now).Write?
    ensures Decide(row, request, now).row.revision == row.revision
  {
  }

  lemma PlanWrites(db: Db, user: UserId, op: Op, now: Time, id: RowId)
    requires WellFormed(db) && ValidOp(db, op) && Representable(now) && PlanOf(db, user, op, now).Save?
    requires id in db.rows && id in PlanOf(db, user, op, now).rows
    ensures PlanWritten(user, op, now, db.rows[id], PlanOf(db, user, op, now).rows[id])
  {
    match op
    case Create(other, u) =>
    case Mutate(asset, request) =>
      MutatedRow(db, user, asset, request, now);
      DecisionKeepsRevision(db.rows[id], request, now);
    case UploadById(other, u) => UploadedRow(db, user, other, u, now);
    case Rotate(items, verify) => RekeyedRow(db, user, items, now, id);
    case Migrate(items, sha256) => MigratedRow(db, user, items, sha256, now, id);
  }

  lemma UploadedRow(db: Db, user: UserId, id: RowId, u: UploadInput, now: Time)
    requires WellFormed(db) && PlanUploadById(db, user, id, u, now).Save?
    ensures var rows := PlanUploadById(db, user, id, u, now).rows;
      && rows.Keys == {id} && id in db.rows && rows[id].updatedAt == now && rows[id].revision == db.rows[id].revision
      && db.rows[id].user == user && db.rows[id].state == rows[id].state == Active
      && rows[id].clock == u.clock && StrictlyNewer(u.clock, db.rows[id].clock)
  {
  }

  lemma RekeyedRow(db: Db, user: UserId, items: seq<RekeyItem>, now: Time, id: RowId)
    requires RotationMatches(db, user, items) && id in OpenRows(db, user)
    ensures Rekeyed(db.rows[id], RekeyedRows(db, user, items, now)[id])
  {
    assert id in RekeyIds(items);
    assert RekeyMatches(db, items[IndexOf(RekeyIds(items), id)]);
  }

  lemma MigratedRow(db: Db, user: UserId, items: seq<MigrationItem>, sha256: Bytes -> Digest, now: Time, id: RowId)
    requires MigrationMatches(db, user, items, sha256) && id in OpenRows(db, user)
    requires forall i :: 0 <= i < |items| ==> items[i].Valid()
    ensures var row := MigratedRows(db, user, items, now)[id];
      row.state == db.rows[id].state && OTC2 <= row.blob && StrictlyNewer(row.clock, db.rows[id].clock)
  {
    assert id in MigrationIds(items);
    var item := items[IndexOf(MigrationIds(items), id)];
    assert MoveMatches(db, item, sha256) && item.Valid();
  }

  // ---------------------------------------------------------------- clocks

  /** The cleaner's bump is due on a row whose cleaner entry cannot be incremented. */
  ghost predicate CleansSaturated(db: Db, step: Step, id: RowId) {
    step.Locked? && step.op.Mutate? && step.op.request.Cleanup? && id in db.rows && Saturated(db.rows[id])
  }

  /**
    Every accepted change of a row strictly advances its clock, merged deletes and cleanup bumps
    included, except a rotation, which keeps it; the cleaner on a saturated row is the one gap.
   */
  lemma EveryChangeAdvances(db: Db, step: Step, id: RowId)
    requires WellFormed(db) && ValidStep(db, step)
    requires id in db.rows && id in Next(db, step).rows && Next(db, step).rows[id] != db.rows[id]
    ensures var was, now := db.rows[id], Next(db, step).rows[id];
      && was.revision < now.revision
      && if step.op.Rotate? then now.clock == was.clock
         else StrictlyNewer(now.clock, was.clock) <==> !CleansSaturated(db, step, id)
  {
    var was, now := db.rows[id], Next(db, step).rows[id];
    StepIsLawful(db, step);
    assert RowEvolves(was, now);
    ChangedRowIsWritten(db, step, id);
    WrittenAdvances(step, was, now);
  }

  lemma WrittenAdvances(step: Step, was: Row, now: Row)
    requires WrittenBy(step, was, now) && Representable(step.now)
    ensures if step.op.Rotate? then now.clock == was.clock
            else
              StrictlyNewer(now.clock, was.clock) <==> !(step.op.Mutate? && step.op.request.Cleanup? && Saturated(was))
  {
    if step.op.Mutate? {
      MutationAdvances(was, step.op.request, step.now);
    }
  }

  lemma AcceptedIsNewer(row: Row, request: Request, now: Time)
    requires Decide(row, request, now).Write? && !request.Cleanup?
    ensures StrictlyNewer(Decide(row, request, now).row.clock, row.clock)
  {
    if request.Delete? {
      DeletionClock(request.input.clock, row.clock, Decide(row, request, now).row.clock);
    }
  }

  lemma MutationAdvances(row: Row, request: Request, now: Time)
    requires Representable(now) && Decide(row, request, now).Write?
    ensures StrictlyNewer(Decide(row, request, now).row.clock, row.clock) <==> !(request.Cleanup? && Saturated(row))
  {
    if request.Cleanup? {
      CleanupActorIsTrimmed();
      BumpAdvances(row.clock, CLEANUP_ACTOR, UnixMilli(now), Decide(row, request, now).row.clock);
    } else {
      AcceptedIsNewer(row, request, now);
    }
  }

  ghost predicate NeverCleansSaturated(db: Db, steps: seq<Step>, id: RowId)
    requires ValidRun(db, steps)
    decreases |steps|
  {
    steps == [] || (!CleansSaturated(db, steps[0], id) && NeverCleansSaturated(Next(db, steps[0]), steps[1..], id))
  }

  lemma StepKeepsClock(db: Db, step: Step, id: RowId)
    requires WellFormed(db) && ValidStep(db, step) && id in db.rows && id in Next(db, step).rows
    requires !CleansSaturated(db, step, id)
    ensures Leq(db.rows[id].clock, Next(db, step).rows[id].clock)
  {
    var was, now := db.rows[id], Next(db, step).rows[id];
    if now != was {
      EveryChangeAdvances(db, step, id);
    }
    AdvancedIsAbove(was.clock, now.clock);
  }

  lemma AdvancedIsAbove(was: RawClock, now: RawClock)
    requires StrictlyNewer(now, was) || now == was
    ensures Leq(was, now)
  {
  }

  /** Over a whole run a row's clock never decreases in any entry. */
  lemma {:induction false} ClockNeverDecreases(db: Db, steps: seq<Step>, id: RowId)
    requires WellFormed(db) && ValidRun(db, steps) && NeverCleansSaturated(db, steps, id)
    requires id in db.rows && id in After(db, steps).rows
    ensures Leq(db.rows[id].clock, After(db, steps).rows[id].clock)
    decreases |steps|
  {
    if steps != [] {
      var next := Next(db, steps[0]);
      StepIsLawful(db, steps[0]);
      RunIsLawful(next, steps[1..]);
      StaysPresent(db, next, After(db, steps), id);
      StepKeepsClock(db, steps[0], id);
      ClockNeverDecreases(next, steps[1..], id);
      AtMostTransitive(Clock(db.rows[id].clock), Clock(next.rows[id].clock), Clock(After(db, steps).rows[id].clock));
    }
  }

  /** Identifiers are never reused, so a row present at both ends was present all along. */
  lemma StaysPresent(first: Db, middle: Db, last: Db, id: RowId)
    requires WellFormed(first) && Evolves(first, middle) && Evolves(middle, last)
    requires id in first.rows && id in last.rows
    ensures id in middle.rows
  {
    assert Indexed(first, id);
    assert middle.log[first.rows[id].revision].config == id;
  }

  /** The bound is exact: on a due row the cleaner's clock falls back if and only if the row is saturated. */
  lemma CleanupFallsBackIff(row: Row, op: string, now: Time)
    requires Shape(row) && Due(row, now) && 0 <= UnixMilli(now) < MAX_INT64
    ensures Decide(row, Cleanup(Ok(op)), now).Write?
    ensures !Leq(row.clock, Decide(row, Cleanup(Ok(op)), now).row.clock) <==> Saturated(row)
  {
    CleanupNeverFails(row, Ok(op), now);
    CleanupActorIsTrimmed();
    var bumped := Decide(row, Cleanup(Ok(op)), now).row.clock;
    BumpAdvances(row.clock, CLEANUP_ACTOR, UnixMilli(now), bumped);
    assert At(Clock(bumped), CLEANUP_ACTOR) == BumpedEntry(At(Clock(row.clock), CLEANUP_ACTOR), UnixMilli(now));
    if Saturated(row) {
      assert At(Clock(row.clock), CLEANUP_ACTOR) == MAX_INT64;
    }
  }

  // ---------------------------------------------------------------- resurrection

  ghost predicate RestoresAbove(db: Db, step: Step, id: RowId, floor: RawClock) {
    && step.Locked? && step.op.Mutate? && step.op.request.Restore?
    && id in db.rows && db.rows[id].state == Deleted
    && db.rows[id].asset == step.op.asset && db.rows[id].user == step.user
    && StrictlyNewer(step.op.request.input.clock, db.rows[id].clock)
    && StrictlyNewer(step.op.request.input.clock, floor)
  }

  ghost predicate RestoredDuring(db: Db, steps: seq<Step>, id: RowId, floor: RawClock)
    requires ValidRun(db, steps)
    decreases |steps|
  {
    steps != [] && (RestoresAbove(db, steps[0], id, floor) || RestoredDuring(Next(db, steps[0]), steps[1..], id, floor))
  }

  lemma WrittenRestore(step: Step, was: Row, now: Row, floor: RawClock)
    requires WrittenBy(step, was, now) && was.state == Deleted && now.state == Active && Leq(floor, was.clock)
    ensures step.op.Mutate? && step.op.request.Restore? && step.op.asset == was.asset && step.user == was.user
    ensures StrictlyNewer(step.op.request.input.clock, was.clock) && StrictlyNewer(step.op.request.input.clock, floor)
  {
    RestoreReactivates(was, step.op.request, step.now);
    NewerTransitive(Clock(floor), Clock(was.clock), Clock(step.op.request.input.clock));
  }

  lemma ReactivatedByRestore(db: Db, step: Step, id: RowId, floor: RawClock)
    requires WellFormed(db) && ValidStep(db, step) && id in db.rows && id in Next(db, step).rows
    requires db.rows[id].state == Deleted && Next(db, step).rows[id].state == Active && Leq(floor, db.rows[id].clock)
    ensures RestoresAbove(db, step, id, floor)
  {
    ChangedRowIsWritten(db, step, id);
    WrittenRestore(step, db.rows[id], Next(db, step).rows[id], floor);
  }

  lemma RestoreReactivates(row: Row, request: Request, now: Time)
    requires row.state == Deleted && Decide(row, request, now).Write? && Decide(row, request, now).row.state == Active
    ensures request.Restore? && StrictlyNewer(request.input.clock, row.clock)
  {
  }

  /** A deleted row is active again only if the run restored it, under a clock above the tombstone's. */
  lemma {:induction false} NoResurrection(db: Db, steps: seq<Step>, id: RowId, floor: RawClock)
    requires WellFormed(db) && ValidRun(db, steps)
    requires id in db.rows && db.rows[id].state == Deleted && Leq(floor, db.rows[id].clock)
    requires id in After(db, steps).rows && After(db, steps).rows[id].state == Active
    ensures RestoredDuring(db, steps, id, floor)
    decreases |steps|
  {
    var next := Next(db, steps[0]);
    StepIsLawful(db, steps[0]);
    RunIsLawful(next, steps[1..]);
    StaysPresent(db, next, After(db, steps), id);
    var was, now := db.rows[id], next.rows[id];
    if now.state == Active {
      ReactivatedByRestore(db, steps[0], id, floor);
    } else {
      assert RowEvolves(was, now) && RowEvolves(now, After(db, steps).rows[id]);
      AtMostTransitive(Clock(floor), Clock(was.clock), Clock(now.clock));
      NoResurrection(next, steps[1..], id, floor);
    }
  }

  /** A purged row is frozen in every field until it is physically collected. */
  lemma PurgedIsFrozen(db: Db, steps: seq<Step>, id: RowId)
    requires WellFormed(db) && ValidRun(db, steps) && id in db.rows && db.rows[id].state == Purged
    ensures id in After(db, steps).rows ==> After(db, steps).rows[id] == db.rows[id]
  {
    RunIsLawful(db, steps);
    if id in After(db, steps).rows {
      assert RowEvolves(db.rows[id], After(db, steps).rows[id]);
    }
  }

  // ---------------------------------------------------------------- the recovery window

  /**
    Ciphertext disappears only through a purge the client asked for with a strictly newer clock, or
    through the cleaner once the recovery window, at least seven days, has passed.
   */
  lemma CiphertextErasedOnlyWhenAllowed(db: Db, step: Step, id: RowId)
    requires WellFormed(db) && ValidStep(db, step) && id in db.rows && id in Next(db, step).rows
    requires db.rows[id].blob != [] && Next(db, step).rows[id].blob == []
    ensures db.rows[id].state == Deleted && step.Locked? && step.op.Mutate?
    ensures match step.op.request
      case Purge(m) => StrictlyNewer(m.clock, db.rows[id].clock)
      case Cleanup(op) => step.now >= db.rows[id].purgeAfter.value >= db.rows[id].deletedAt.value + 7 * DAY
      case _ => false
  {
    ChangedRowIsWritten(db, step, id);
    RowsChangeByRowSteps(db, step, id);
    DecisionErases(db.rows[id], step.op.request, step.now);
  }

  lemma DecisionErases(row: Row, request: Request, now: Time)
    requires Shape(row) && request.Valid() && Decide(row, request, now).Write?
    requires Decide(row, request, now).row.blob == []
    requires row.blob != []
    ensures row.state == Deleted
    ensures match request
      case Purge(m) => StrictlyNewer(m.clock, row.clock)
      case Cleanup(op) => now >= row.purgeAfter.value >= row.deletedAt.value + 7 * DAY
      case _ => false
  {
  }

  /** While a row stays deleted, no later delete moves its recovery window. */
  lemma RedeleteKeepsWindow(db: Db, step: Step, id: RowId)
    requires WellFormed(db) && ValidStep(db, step) && id in db.rows && id in Next(db, step).rows
    requires db.rows[id].state == Next(db, step).rows[id].state == Deleted
    ensures Next(db, step).rows[id].deletedAt == db.rows[id].deletedAt
    ensures Next(db, step).rows[id].purgeAfter == db.rows[id].purgeAfter
  {
    if Next(db, step).rows[id] != db.rows[id] {
      RowsChangeByRowSteps(db, step, id);
    }
  }

  lemma RowsChangeByRowSteps(db: Db, step: Step, id: RowId)
    requires WellFormed(db) && ValidStep(db, step)
    requires id in db.rows && id in Next(db, step).rows && Next(db, step).rows[id] != db.rows[id]
    ensures RowStep(db.rows[id], Next(db, step).rows[id])
  {
    PlanIsLawful(db, step.user, step.op, step.revisions, step.now);
    var rows := Stamp(PlanOf(db, step.user, step.op, step.now).rows, step.revisions);
    assert LawfulRow(db, step.user, id, rows[id]);
  }

  /** The entry under the row's revision is about this row, with its asset, its state and its last operation. */
  ghost predicate EntryAgrees(db: Db, row: Row) {
    row.revision in db.log && db.log[row.revision] == Change(row.user, row.id, row.asset, row.state, row.lastOp)
  }

  lemma RevisionNamesRow(db: Db, id: RowId, other: RowId)
    requires WellFormed(db) && id in db.rows && other in db.rows
    ensures db.rows[id].revision > 0 && Indexed(db, id) && EntryAgrees(db, db.rows[id])
    ensures db.rows[id].revision == db.rows[other].revision ==> id == other
  {
    assert Indexed(db, id) && Indexed(db, other);
  }

  /** In every reachable database a positive revision names at most one row, and the log ends with that row as it is. */
  lemma RevisionsNameRows(db: Db, steps: seq<Step>)
    requires WellFormed(db) && ValidRun(db, steps)
    ensures forall id | id in After(db, steps).rows ::
      && After(db, steps).rows[id].revision > 0 && Indexed(After(db, steps), id)
      && EntryAgrees(After(db, steps), After(db, steps).rows[id])
    ensures forall id, other | id in After(db, steps).rows && other in After(db, steps).rows && id != other ::
      After(db, steps).rows[id].revision != After(db, steps).rows[other].revision
  {
    var last := After(db, steps);
    RunIsLawful(db, steps);
    forall id, other | id in last.rows && other in last.rows
      ensures last.rows[id].revision > 0 && Indexed(last, id) && EntryAgrees(last, last.rows[id])
      ensures id != other ==> last.rows[id].revision != last.rows[other].revision
    {
      RevisionNamesRow(last, id, other);
    }
  }
}
