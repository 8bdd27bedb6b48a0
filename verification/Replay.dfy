/** At most once over whole runs: exactly which requests can write again when they are repeated later. */
module Replay {
  import opened VectorClock
  import opened ServerConfig
  import opened Database
  import opened Evolution
  import opened Lifecycle
  import opened RunSafety
  import opened Store

  /** After this run the request, repeated on the same row, writes. */
  ghost predicate WritesAfter(
      db: Db, steps: seq<Step>, user: UserId, asset: string, request: Request, id: RowId, later: Time)
  {
    && ValidRun(db, steps) && id in After(db, steps).rows
    && PlanOf(After(db, steps), user, Mutate(asset, request), later).Save?
  }

  /** Some run lets the request write again. */
  ghost predicate CanWriteAgain(db: Db, user: UserId, asset: string, request: Request, id: RowId) {
    exists steps, later :: WritesAfter(db, steps, user, asset, request, id, later)
  }

  /**
    What a caller can check of a request that was answered without a change: a delete whose clock the
    row does not cover, or a restore whose clock leaves room for a delete in between.
   */
  ghost predicate Repeatable(request: Request, row: Row) {
    match request
    case Delete(m, _) => row.state == Deleted && !Leq(m.clock, row.clock)
    case Restore(m) => ExceedsByTwo(m.clock, row.clock)
    case _ => false
  }

  // ---------------------------------------------------------------- only these can

  /** A run that turns an active row into a deleted one advances its clock. */
  lemma {:induction false} DeletionAdvances(db: Db, steps: seq<Step>, id: RowId)
    requires WellFormed(db) && ValidRun(db, steps) && id in db.rows && id in After(db, steps).rows
    requires db.rows[id].state == Active && After(db, steps).rows[id].state == Deleted
    ensures StrictlyNewer(After(db, steps).rows[id].clock, db.rows[id].clock)
    decreases |steps|
  {
    var next, last := Next(db, steps[0]), After(db, steps);
    StepIsLawful(db, steps[0]);
    RunIsLawful(next, steps[1..]);
    StaysPresent(db, next, last, id);
    if next.rows[id].state == Active {
      DeletionAdvances(next, steps[1..], id);
    } else {
      RowsChangeByRowSteps(db, steps[0], id);
    }
    AdvancesAcross(db.rows[id], next.rows[id], last.rows[id]);
  }

  lemma AdvancesAcross(was: Row, middle: Row, now: Row)
    requires was.state == Active && now.state == Deleted && RowEvolves(was, middle) && RowEvolves(middle, now)
    requires if middle.state == Active then StrictlyNewer(now.clock, middle.clock) else RowStep(was, middle)
    ensures StrictlyNewer(now.clock, was.clock)
  {
    if middle.state != Active {
      StateChangeAdvances(was, middle);
    }
    NewerTransitive(Clock(was.clock), Clock(middle.clock), Clock(now.clock));
  }

  lemma StateChangeAdvances(was: Row, now: Row)
    requires RowStep(was, now) && now.state != was.state && now.state != Purged
    ensures StrictlyNewer(now.clock, was.clock)
  {
  }

  lemma SavedDecision(db: Db, user: UserId, asset: string, request: Request, id: RowId, now: Time)
    requires WellFormed(db) && asset != "" && Holds(db, id, user, asset)
    requires PlanOf(db, user, Mutate(asset, request), now).Save?
    ensures Decide(db.rows[id], request, now).Write?
  {
    AssetLookup(db, user, asset);
  }

  /** What a repeated request needs of the row it finds, when the row has moved on from `was`. */
  lemma WritingIsRepeatable(was: Row, row: Row, request: Request, now: Time, later: Time)
    requires Shape(was) && Shape(row) && request.Valid() && !request.Cleanup? && RowEvolves(was, row)
    requires Decide(was, request, now) == Keep && Decide(row, request, later).Write?
    requires was.state == Active && row.state == Deleted ==> StrictlyNewer(row.clock, was.clock)
    ensures Repeatable(request, was)
  {
    match request
    case Upload(u) =>
      AbsorbedForever(request, was, row);
      AbsorbedIsInert(row, request, later);
    case Delete(m, days) =>
      if Leq(m.clock, was.clock) && was.state == Deleted {
        AbsorbedForever(request, was, row);
        AbsorbedIsInert(row, request, later);
      }
    case Restore(m) => BetweenExceeds(was.clock, row.clock, m.clock);
    case Purge(m) =>
  }

  lemma OnlyRepeatableWrites(
      db: Db, steps: seq<Step>, user: UserId, asset: string, request: Request, id: RowId, now: Time, later: Time)
    requires WellFormed(db) && Holds(db, id, user, asset) && asset != "" && request.Valid() && !request.Cleanup?
    requires Decide(db.rows[id], request, now) == Keep && WritesAfter(db, steps, user, asset, request, id, later)
    ensures Repeatable(request, db.rows[id])
  {
    var last := After(db, steps);
    RunIsLawful(db, steps);
    assert RowEvolves(db.rows[id], last.rows[id]);
    SavedDecision(last, user, asset, request, id, later);
    if db.rows[id].state == Active && last.rows[id].state == Deleted {
      DeletionAdvances(db, steps, id);
    }
    WritingIsRepeatable(db.rows[id], last.rows[id], request, now, later);
  }

  // ---------------------------------------------------------------- and each of these can

  lemma StampKeepsDecision(row: Row, request: Request, now: Time, revision: Revision)
    requires Decide(row, request, now).Write?
    ensures Decide(row.(updatedAt := now, revision := revision), request, now).Write?
  {
  }

  lemma FoundDecision(db: Db, user: UserId, asset: string, request: Request, id: RowId, now: Time)
    requires WellFormed(db) && asset != "" && Holds(db, id, user, asset) && user in db.accounts
    requires Decide(db.rows[id], request, now).Write?
    ensures PlanOf(db, user, Mutate(asset, request), now).Save?
  {
    AssetLookup(db, user, asset);
  }

  lemma CommittedMutation(db: Db, user: UserId, asset: string, id: RowId, request: Request, now: Time)
    returns (step: Step, saved: Row)
    requires WellFormed(db) && Holds(db, id, user, asset) && asset != "" && request.Valid() && Representable(now)
    requires Decide(db.rows[id], request, now).Write?
    ensures saved == Decide(db.rows[id], request, now).row.(updatedAt := now, revision := saved.revision)
    ensures saved.id == id && saved.user == user && saved.asset == asset && saved.revision > 0
    ensures step.Locked? && step.user == user && step.op == Mutate(asset, request) && step.now == now
    ensures ValidStep(db, step) && Next(db, step) == Saved(db, saved) && WellFormed(Saved(db, saved))
  {
    var row := Decide(db.rows[id], request, now).row.(updatedAt := now);
    var bound := LogHasBound(db.log.Keys);
    AssetLookup(db, user, asset);
    DecisionIsRowStep(db.rows[id], request, now);
    step := OneRowCommit(db, user, Mutate(asset, request), now, row, bound + 1);
    saved := row.(revision := bound + 1);
  }

  /** One accepted request in between, after which the repeated one writes. */
  lemma OneStepBetween(
      db: Db, user: UserId, asset: string, id: RowId, between: Request, request: Request, now: Time)
    requires WellFormed(db) && Holds(db, id, user, asset) && asset != "" && between.Valid() && Representable(now)
    requires Decide(db.rows[id], between, now).Write?
    requires Decide(Decide(db.rows[id], between, now).row, request, now).Write?
    ensures CanWriteAgain(db, user, asset, request, id)
  {
    var step, saved := CommittedMutation(db, user, asset, id, between, now);
    StampKeepsDecision(Decide(db.rows[id], between, now).row, request, now, saved.revision);
    var next := Saved(db, saved);
    FoundDecision(next, user, asset, request, id, now);
    OneStepRun(db, step);
    assert WritesAfter(db, [step], user, asset, request, id, now);
  }

  lemma RepeatableWrites(db: Db, user: UserId, asset: string, request: Request, id: RowId, now: Time)
    requires WellFormed(db) && Holds(db, id, user, asset) && asset != "" && request.Valid() && Representable(now)
    requires Decide(db.rows[id], request, now) == Keep && Repeatable(request, db.rows[id])
    ensures CanWriteAgain(db, user, asset, request, id)
  {
    var row := db.rows[id];
    match request
    case Delete(m, days) =>
      AnsweredByOperationIdReplaysIff(row, m, days, now);
      var r: AssetMutation :| r.Valid() && Decide(row, Restore(r), now).Write?
        && Decide(Decide(row, Restore(r), now).row, Delete(m, days), now).Write?;
      OneStepBetween(db, user, asset, id, Restore(r), request, now);
    case Restore(m) =>
      var d := DeleteBelow(row, m, 7, now);
      OneStepBetween(db, user, asset, id, Delete(d, 7), request, now);
    case _ =>
  }

  // ---------------------------------------------------------------- the exact condition

  /** A request answered without a change can write when repeated if and only if it is repeatable. */
  lemma AnsweredWritesAgainIff(db: Db, user: UserId, asset: string, request: Request, id: RowId, now: Time)
    requires WellFormed(db) && Holds(db, id, user, asset) && asset != "" && request.Valid() && !request.Cleanup?
    requires Representable(now) && Decide(db.rows[id], request, now) == Keep
    ensures CanWriteAgain(db, user, asset, request, id) <==> Repeatable(request, db.rows[id])
  {
    if CanWriteAgain(db, user, asset, request, id) {
      var steps, later :| WritesAfter(db, steps, user, asset, request, id, later);
      OnlyRepeatableWrites(db, steps, user, asset, request, id, now, later);
    }
    if Repeatable(request, db.rows[id]) {
      RepeatableWrites(db, user, asset, request, id, now);
    }
  }

  /** A request that took effect never writes again on its row. */
  lemma AppliedNeverWritesAgain(
      db: Db, user: UserId, asset: string, request: Request, revisions: map<RowId, Revision>, now: Time, id: RowId)
    requires WellFormed(db) && !request.Cleanup? && Holds(db, id, user, asset)
    requires ValidStep(db, Locked(user, Mutate(asset, request), revisions, now))
    requires PlanOf(db, user, Mutate(asset, request), now).Save?
    ensures !CanWriteAgain(LockedNext(db, user, Mutate(asset, request), revisions, now), user, asset, request, id)
  {
    var next := LockedNext(db, user, Mutate(asset, request), revisions, now);
    AssetLookup(db, user, asset);
    AcceptedIsAbsorbed(db, user, asset, request, revisions, now);
    StepIsLawful(db, Locked(user, Mutate(asset, request), revisions, now));
    forall steps, later | WritesAfter(next, steps, user, asset, request, id, later) ensures false {
      AbsorbedStaysInert(next, id, user, asset, request, steps, later);
    }
  }

  // ---------------------------------------------------------------- uploads addressed by row id

  lemma AbsorbedByIdIsInert(db: Db, user: UserId, id: RowId, u: UploadInput, now: Time)
    requires WellFormed(db) && id in db.rows && u.Valid() && Absorbed(Upload(u), db.rows[id])
    ensures !PlanUploadById(db, user, id, u, now).Save?
  {
    AbsorbedIsInert(db.rows[id], Upload(u), now);
  }

  lemma SavedById(db: Db, user: UserId, id: RowId, u: UploadInput, now: Time) returns (row: Row)
    requires WellFormed(db) && u.Valid() && PlanUploadById(db, user, id, u, now).Save?
    ensures PlanUploadById(db, user, id, u, now) == Plan.Save(map[id := row], false)
    ensures row.id == id && row.user == user && row.clock == u.clock
  {
    row := PlanUploadById(db, user, id, u, now).rows[id];
  }

  lemma UnchangedByIdIsAbsorbed(db: Db, user: UserId, id: RowId, u: UploadInput, now: Time)
    requires u.Valid() && PlanUploadById(db, user, id, u, now).Unchanged?
    ensures id in db.rows && db.rows[id].user == user && Absorbed(Upload(u), db.rows[id])
  {
  }

  lemma SavedByIdIsAbsorbed(
      db: Db, user: UserId, id: RowId, u: UploadInput, revisions: map<RowId, Revision>, now: Time, row: Row, next: Db)
    requires ValidStep(db, Locked(user, UploadById(id, u), revisions, now))
    requires PlanOf(db, user, UploadById(id, u), now) == Plan.Save(map[id := row], false)
    requires row.id == id && row.user == user && row.clock == u.clock
    requires next == LockedNext(db, user, UploadById(id, u), revisions, now)
    ensures id in next.rows && next.rows[id].user == user && Absorbed(Upload(u), next.rows[id])
  {
    SavingStep(db, user, UploadById(id, u), revisions, now, Plan.Save(map[id := row], false));
    OneRowAfter(db, user, row, revisions);
  }

  lemma UploadedByIdIsAbsorbed(
      db: Db, user: UserId, id: RowId, u: UploadInput, revisions: map<RowId, Revision>, now: Time, next: Db)
    requires WellFormed(db) && ValidStep(db, Locked(user, UploadById(id, u), revisions, now))
    requires PlanUploadById(db, user, id, u, now).Save? || PlanUploadById(db, user, id, u, now).Unchanged?
    requires next == LockedNext(db, user, UploadById(id, u), revisions, now)
    ensures id in next.rows && next.rows[id].user == user && Absorbed(Upload(u), next.rows[id])
  {
    if PlanUploadById(db, user, id, u, now).Save? {
      var row := SavedById(db, user, id, u, now);
      SavedByIdIsAbsorbed(db, user, id, u, revisions, now, row, next);
    } else {
      UnchangedByIdIsAbsorbed(db, user, id, u, now);
    }
  }

  lemma AbsorbedHereIsInert(db: Db, user: UserId, asset: string, request: Request, id: RowId, now: Time)
    requires WellFormed(db) && asset != "" && Holds(db, id, user, asset) && request.Valid()
    requires Absorbed(request, db.rows[id])
    ensures !PlanOf(db, user, Mutate(asset, request), now).Save?
  {
    AssetLookup(db, user, asset);
    AbsorbedIsInert(db.rows[id], request, now);
  }

  /**
    An upload by row id that succeeded, also one that bound a legacy row to its asset, never writes
    again: neither repeated by row id nor, once the row is bound, by the asset.
   */
  lemma ReplayedUploadByIdIsInert(
      db: Db, user: UserId, id: RowId, u: UploadInput, revisions: map<RowId, Revision>, now: Time, next: Db,
      steps: seq<Step>, later: Time)
    requires WellFormed(db) && ValidStep(db, Locked(user, UploadById(id, u), revisions, now))
    requires PlanUploadById(db, user, id, u, now).Save? || PlanUploadById(db, user, id, u, now).Unchanged?
    requires next == LockedNext(db, user, UploadById(id, u), revisions, now)
    requires ValidRun(next, steps) && id in After(next, steps).rows
    ensures !PlanOf(After(next, steps), user, UploadById(id, u), later).Save?
    ensures After(next, steps).rows[id].asset != "" ==>
      !PlanOf(After(next, steps), user, Mutate(After(next, steps).rows[id].asset, Upload(u)), later).Save?
  {
    var last := After(next, steps);
    StepIsLawful(db, Locked(user, UploadById(id, u), revisions, now));
    UploadedByIdIsAbsorbed(db, user, id, u, revisions, now, next);
    RunIsLawful(next, steps);
    AbsorbedForever(Upload(u), next.rows[id], last.rows[id]);
    AbsorbedByIdIsInert(last, user, id, u, later);
    if last.rows[id].asset != "" {
      AbsorbedHereIsInert(last, user, last.rows[id].asset, Upload(u), id, later);
    }
  }
}
