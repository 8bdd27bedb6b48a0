/**
  What each request answers and leaves behind, spelled out on the two databases: every cause of
  refusal, every field that changes, and that nothing else does.
 */
module Outcomes {
  import opened Wrappers
  import opened Text
  import opened VectorClock
  import opened ServerConfig
  import opened Database
  import opened Evolution
  import opened Lifecycle
  import opened Store

  ghost predicate SameClock(a: RawClock, b: RawClock) {
    Leq(a, b) && Leq(b, a)
  }

  /** One row was saved and logged under a new revision; everything else is as it was. */
  ghost predicate Wrote(before: Db, row: Row, after: Db) {
    && row.revision !in before.log && (forall r: Revision | Logged(before, row.user, r) :: r < row.revision)
    && after == Db(
         before.rows[row.id := row],
         before.log[row.revision := Change(row.user, row.id, row.asset, row.state, row.lastOp)],
         before.acks, before.accounts)
  }

  /** The row a first upload leaves behind. */
  ghost predicate Stored(before: Db, user: UserId, u: UploadInput, now: Time, after: Db, r: Result<Row>) {
    && r.Ok? && r.value.id !in before.rows && Wrote(before, r.value, after)
    && r.value == Row(r.value.id, user, u.asset, u.fingerprint, u.blob, u.clock, Active, None, None, "", "",
                      r.value.revision, now)
  }

  ghost predicate Refused(before: Db, after: Db, r: Result<Row>, error: Error) {
    after == before && r == Err(error)
  }

  ghost predicate NoSuchAsset(before: Db, user: UserId, after: Db, r: Result<Row>) {
    Refused(before, after, r, if user in before.accounts then NotFound else UserMissing)
  }

  // ---------------------------------------------------------------- uploads

  /** An upload to a live row takes effect exactly when its clock is strictly newer; an equal one must be the same. */
  ghost predicate UploadsTo(
      before: Db, was: Row, asset: string, u: UploadInput, sameFingerprint: bool, now: Time, after: Db, r: Result<Row>)
  {
    if StrictlyNewer(u.clock, was.clock) then
      && r.Ok? && Wrote(before, r.value, after)
      && r.value == was.(
           asset := asset, blob := u.blob, clock := u.clock, revision := r.value.revision, updatedAt := now,
           fingerprint := if u.fingerprint == "" then was.fingerprint else u.fingerprint)
    else
      && after == before
      && r == if SameClock(u.clock, was.clock) && u.blob == was.blob && sameFingerprint then Ok(was)
              else Err(VectorClockConflict)
  }

  predicate FingerprintAgrees(u: UploadInput, was: Row) {
    u.fingerprint == "" || u.fingerprint == was.fingerprint
  }

  ghost predicate UploadAnswer(
      before: Db, user: UserId, asset: string, u: UploadInput, now: Time, after: Db, r: Result<Row>)
  {
    match FindByAsset(before, user, asset)
    case None => NoSuchAsset(before, user, after, r)
    case Some(was) =>
      if was.state != Active then Refused(before, after, r, InvalidState)
      else UploadsTo(before, was, was.asset, u, FingerprintAgrees(u, was), now, after, r)
  }

  ghost predicate UploadByIdAnswer(
      before: Db, user: UserId, id: RowId, u: UploadInput, now: Time, after: Db, r: Result<Row>)
  {
    if id !in before.rows || before.rows[id].user != user then Refused(before, after, r, NotFound) else
    var was := before.rows[id];
    if was.state != Active then Refused(before, after, r, InvalidState)
    else if u.asset != "" && was.asset != "" && u.asset != was.asset then Refused(before, after, r, InvalidInput)
    else if was.asset != "" then UploadsTo(before, was, was.asset, u, FingerprintAgrees(u, was), now, after, r)
    else if u.asset != "" && FindByAsset(before, user, u.asset).Some? then
      Refused(before, after, r, VectorClockConflict)
    else UploadsTo(before, was, u.asset, u, true, now, after, r)
  }

  // ---------------------------------------------------------------- the asset lifecycle

  /** A delete is refused only below or at the row's clock, and ends at the join of the two clocks. */
  ghost predicate DeleteAnswer(
      before: Db, user: UserId, m: AssetMutation, days: int, now: Time, after: Db, r: Result<Row>)
  {
    match FindByAsset(before, user, m.asset)
    case None => NoSuchAsset(before, user, after, r)
    case Some(was) =>
      if was.lastOp == m.op && was.state != Active then after == before && r == Ok(was)
      else if was.state == Purged then Refused(before, after, r, AlreadyPurged)
      else if Leq(m.clock, was.clock) then Refused(before, after, r, VectorClockConflict)
      else
        && r.Ok? && Wrote(before, r.value, after) && IsJoin(m.clock, was.clock, r.value.clock)
        && (StrictlyNewer(m.clock, was.clock) ==> r.value.clock == m.clock)
        && r.value == was.(
             state := Deleted, clock := r.value.clock, deletedBy := Trim(m.device), lastOp := m.op,
             deletedAt := if was.state == Active then Some(now) else was.deletedAt,
             purgeAfter := if was.state == Active then Some(now + days * DAY) else was.purgeAfter,
             revision := r.value.revision, updatedAt := now)
  }

  /** A restore gives back exactly what was deleted, under exactly the clock that was sent. */
  ghost predicate RestoreAnswer(before: Db, user: UserId, m: AssetMutation, now: Time, after: Db, r: Result<Row>) {
    match FindByAsset(before, user, m.asset)
    case None => NoSuchAsset(before, user, after, r)
    case Some(was) =>
      match was.state
      case Purged => Refused(before, after, r, AlreadyPurged)
      case Active => after == before && r == if was.lastOp == m.op then Ok(was) else Err(InvalidState)
      case Deleted =>
        if !StrictlyNewer(m.clock, was.clock) then Refused(before, after, r, VectorClockConflict)
        else
          && r.Ok? && Wrote(before, r.value, after)
          && r.value == was.(
               state := Active, clock := m.clock, deletedAt := None, purgeAfter := None, deletedBy := "",
               lastOp := m.op, revision := r.value.revision, updatedAt := now)
  }

  /** A purge erases the ciphertext of a deleted row, and keeps who deleted it and when. */
  ghost predicate PurgeAnswer(before: Db, user: UserId, m: AssetMutation, now: Time, after: Db, r: Result<Row>) {
    match FindByAsset(before, user, m.asset)
    case None => NoSuchAsset(before, user, after, r)
    case Some(was) =>
      match was.state
      case Purged => after == before && r == if was.lastOp == m.op then Ok(was) else Err(AlreadyPurged)
      case Active => Refused(before, after, r, InvalidState)
      case Deleted =>
        if !StrictlyNewer(m.clock, was.clock) then Refused(before, after, r, VectorClockConflict)
        else
          && r.Ok? && Wrote(before, r.value, after)
          && r.value == was.(
               state := Purged, clock := m.clock, blob := [], purgeAfter := None,
               lastOp := m.op, revision := r.value.revision, updatedAt := now)
  }

  /** The cleaner does the same to a row whose window has passed, under its own entry of the clock. */
  ghost predicate CleanupAnswer(
      before: Db, user: UserId, asset: string, operation: Result<string>, now: Time, after: Db, r: Result<Row>)
  {
    match FindByAsset(before, user, asset)
    case None => NoSuchAsset(before, user, after, r)
    case Some(was) =>
      if !(was.state == Deleted && was.purgeAfter.Some? && was.purgeAfter.value <= now) then
        after == before && r == Ok(was)
      else if operation.Err? then Refused(before, after, r, operation.error)
      else
        && r.Ok? && Wrote(before, r.value, after)
        && (forall key :: key != CLEANUP_ACTOR ==> At(Clock(r.value.clock), key) == At(Clock(was.clock), key))
        && (At(Clock(was.clock), CLEANUP_ACTOR) < MAX_INT64 ==>
              StrictlyNewer(r.value.clock, was.clock) && At(Clock(r.value.clock), CLEANUP_ACTOR) >= UnixMilli(now))
        && r.value == was.(
             state := Purged, clock := r.value.clock, blob := [], purgeAfter := None,
             lastOp := operation.value, revision := r.value.revision, updatedAt := now)
  }

  // ---------------------------------------------------------------- decisions of one row

  lemma UploadDecision(row: Row, u: UploadInput)
    requires Parses(row.clock) && Parses(u.clock)
    ensures row.state != Active ==> DecideUpload(row, u) == Refuse(InvalidState)
    ensures row.state == Active && StrictlyNewer(u.clock, row.clock) ==>
      DecideUpload(row, u) == Write(row.(
        blob := u.blob, clock := u.clock,
        fingerprint := if u.fingerprint == "" then row.fingerprint else u.fingerprint))
    ensures row.state == Active && !StrictlyNewer(u.clock, row.clock) ==>
      DecideUpload(row, u) ==
        if SameClock(u.clock, row.clock) && u.blob == row.blob && FingerprintAgrees(u, row) then Keep
        else Refuse(VectorClockConflict)
  {
  }

  lemma LegacyDecision(row: Row, u: UploadInput)
    requires Parses(row.clock) && Parses(u.clock) && row.state == Active
    ensures StrictlyNewer(u.clock, row.clock) ==>
      DecideLegacy(row, u) == Write(row.(
        asset := u.asset, blob := u.blob, clock := u.clock,
        fingerprint := if u.fingerprint == "" then row.fingerprint else u.fingerprint))
    ensures !StrictlyNewer(u.clock, row.clock) ==>
      DecideLegacy(row, u) ==
        if SameClock(u.clock, row.clock) && u.blob == row.blob then Keep else Refuse(VectorClockConflict)
  {
  }

  lemma DeleteDecision(row: Row, m: AssetMutation, days: int, now: Time)
    requires Shape(row) && Parses(m.clock)
    ensures row.lastOp == m.op && row.state != Active ==> DecideDelete(row, m, days, now) == Keep
    ensures !(row.lastOp == m.op && row.state != Active) && row.state == Purged ==>
      DecideDelete(row, m, days, now) == Refuse(AlreadyPurged)
    ensures !(row.lastOp == m.op && row.state != Active) && row.state != Purged && Leq(m.clock, row.clock) ==>
      DecideDelete(row, m, days, now) == Refuse(VectorClockConflict)
    ensures !(row.lastOp == m.op && row.state != Active) && row.state != Purged && !Leq(m.clock, row.clock) ==>
      DecideDelete(row, m, days, now).Write?
  {
    if row.state != Purged && !(row.lastOp == m.op && row.IsDeleted()) {
      DeleteAccepts(row, m, days, now);
    }
  }

  lemma DeleteWrites(row: Row, m: AssetMutation, days: int, now: Time)
    requires Shape(row) && Parses(m.clock) && DecideDelete(row, m, days, now).Write?
    ensures var result := DecideDelete(row, m, days, now).row;
      && IsJoin(m.clock, row.clock, result.clock)
      && (StrictlyNewer(m.clock, row.clock) ==> result.clock == m.clock)
      && result == row.(
           state := Deleted, clock := result.clock, deletedBy := Trim(m.device), lastOp := m.op,
           deletedAt := if row.state == Active then Some(now) else row.deletedAt,
           purgeAfter := if row.state == Active then Some(now + days * DAY) else row.purgeAfter)
  {
    DeleteAccepts(row, m, days, now);
  }

  lemma RestoreDecision(row: Row, m: AssetMutation)
    requires Parses(row.clock) && Parses(m.clock)
    ensures row.state == Purged ==> DecideRestore(row, m) == Refuse(AlreadyPurged)
    ensures row.state == Active ==> DecideRestore(row, m) == if row.lastOp == m.op then Keep else Refuse(InvalidState)
    ensures row.state == Deleted && !StrictlyNewer(m.clock, row.clock) ==>
      DecideRestore(row, m) == Refuse(VectorClockConflict)
    ensures row.state == Deleted && StrictlyNewer(m.clock, row.clock) ==>
      DecideRestore(row, m) == Write(row.(
        state := Active, clock := m.clock, deletedAt := None, purgeAfter := None, deletedBy := "", lastOp := m.op))
  {
  }

  lemma PurgeDecision(row: Row, m: AssetMutation)
    requires Parses(row.clock) && Parses(m.clock)
    ensures row.state == Purged ==> DecidePurge(row, m) == if row.lastOp == m.op then Keep else Refuse(AlreadyPurged)
    ensures row.state == Active ==> DecidePurge(row, m) == Refuse(InvalidState)
    ensures row.state == Deleted && !StrictlyNewer(m.clock, row.clock) ==>
      DecidePurge(row, m) == Refuse(VectorClockConflict)
    ensures row.state == Deleted && StrictlyNewer(m.clock, row.clock) ==>
      DecidePurge(row, m) == Write(row.(
        state := Purged, clock := m.clock, blob := [], purgeAfter := None, lastOp := m.op))
  {
  }

  lemma CleanupDecides(row: Row, operation: Result<string>, now: Time)
    requires Shape(row) && Representable(now)
    ensures var due := row.state == Deleted && row.purgeAfter.Some? && row.purgeAfter.value <= now;
      && (!due ==> DecideCleanup(row, operation, now) == Keep)
      && (due && operation.Err? ==> DecideCleanup(row, operation, now) == Refuse(operation.error))
      && (due && operation.Ok? ==>
            DecideCleanup(row, operation, now).Write?
            && CleanedBy(row, DecideCleanup(row, operation, now).row, operation.value, now))
  {
    CleanupNeverFails(row, Ok(""), now);
    CleanupActorIsTrimmed();
    if Due(row, now) {
      BumpAdvances(row.clock, CLEANUP_ACTOR, UnixMilli(now), Bump(row.clock, CLEANUP_ACTOR, UnixMilli(now)).value);
    }
  }

  ghost predicate CleanedBy(was: Row, row: Row, op: string, now: Time) {
    && (forall key :: key != CLEANUP_ACTOR ==> At(Clock(row.clock), key) == At(Clock(was.clock), key))
    && (At(Clock(was.clock), CLEANUP_ACTOR) < MAX_INT64 ==>
          StrictlyNewer(row.clock, was.clock) && At(Clock(row.clock), CLEANUP_ACTOR) >= UnixMilli(now))
    && row == was.(state := Purged, clock := row.clock, blob := [], purgeAfter := None, lastOp := op)
  }

  // ---------------------------------------------------------------- from decisions to answers

  lemma SavedIsWrote(before: Db, row: Row)
    requires FreshRevision(before, row.user, row.revision)
    ensures Wrote(before, row, Saved(before, row))
  {
  }

  /** What an executed mutation answers, by the decision on the row it found. */
  ghost predicate ByDecision(
      before: Db, was: Row, decision: Mutation, now: Time, after: Db, r: Result<Row>)
  {
    match decision
    case Refuse(e) => Refused(before, after, r, e)
    case Keep => after == before && r == Ok(was)
    case Write(next) =>
      r.Ok? && r.value == next.(updatedAt := now, revision := r.value.revision) && Wrote(before, r.value, after)
  }

  lemma ExecutedByDecision(
      before: Db, user: UserId, asset: string, request: Request, now: Time, after: Db, r: Result<Row>)
    requires WellFormed(before) && asset != "" && request.Valid() && Representable(now)
    requires Executed(before, user, Mutate(asset, request), now, after, r)
    ensures FindByAsset(before, user, asset).None? ==> NoSuchAsset(before, user, after, r)
    ensures FindByAsset(before, user, asset).Some? ==>
      var was := FindByAsset(before, user, asset).value;
      && Shape(was) && was.asset == asset && was.user == user && was.id in before.rows
      && ByDecision(before, was, Decide(was, request, now), now, after, r)
  {
    AssetLookup(before, user, asset);
    if FindByAsset(before, user, asset).Some? {
      FoundByDecision(before, user, asset, request, now, after, r, FindByAsset(before, user, asset).value);
    }
  }

  lemma FoundByDecision(
      before: Db, user: UserId, asset: string, request: Request, now: Time, after: Db, r: Result<Row>, was: Row)
    requires WellFormed(before) && asset != "" && request.Valid() && Representable(now)
    requires Executed(before, user, Mutate(asset, request), now, after, r)
    requires FindByAsset(before, user, asset) == Some(was)
    requires Holds(before, was.id, user, asset) && before.rows[was.id] == was
    ensures ByDecision(before, was, Decide(was, request, now), now, after, r)
  {
    if Decide(was, request, now).Write? {
      DecisionIsRowStep(was, request, now);
      var row := Decide(was, request, now).row.(updatedAt := now);
      OneRowExecuted(before, user, Mutate(asset, request), now, after, r, row);
      SavedIsWrote(before, r.value);
    }
  }

  lemma UploadIsAnswered(before: Db, user: UserId, asset: string, u: UploadInput, now: Time, after: Db, r: Result<Row>)
    requires WellFormed(before) && asset != "" && u.Valid() && Representable(now)
    requires Executed(before, user, Mutate(asset, Upload(u)), now, after, r)
    ensures UploadAnswer(before, user, asset, u, now, after, r)
  {
    ExecutedByDecision(before, user, asset, Upload(u), now, after, r);
    if FindByAsset(before, user, asset).Some? {
      UploadDecision(FindByAsset(before, user, asset).value, u);
    }
  }

  lemma DeleteIsAnswered(before: Db, user: UserId, m: AssetMutation, days: int, now: Time, after: Db, r: Result<Row>)
    requires WellFormed(before) && m.asset != "" && Delete(m, days).Valid() && Representable(now)
    requires Executed(before, user, Mutate(m.asset, Delete(m, days)), now, after, r)
    ensures DeleteAnswer(before, user, m, days, now, after, r)
  {
    ExecutedByDecision(before, user, m.asset, Delete(m, days), now, after, r);
    if FindByAsset(before, user, m.asset).Some? {
      var was := FindByAsset(before, user, m.asset).value;
      DeleteDecision(was, m, days, now);
      if DecideDelete(was, m, days, now).Write? {
        DeleteWrites(was, m, days, now);
      }
    }
  }

  lemma RestoreIsAnswered(before: Db, user: UserId, m: AssetMutation, now: Time, after: Db, r: Result<Row>)
    requires WellFormed(before) && m.asset != "" && m.Valid() && Representable(now)
    requires Executed(before, user, Mutate(m.asset, Restore(m)), now, after, r)
    ensures RestoreAnswer(before, user, m, now, after, r)
  {
    ExecutedByDecision(before, user, m.asset, Restore(m), now, after, r);
    if FindByAsset(before, user, m.asset).Some? {
      RestoreDecision(FindByAsset(before, user, m.asset).value, m);
    }
  }

  lemma PurgeIsAnswered(before: Db, user: UserId, m: AssetMutation, now: Time, after: Db, r: Result<Row>)
    requires WellFormed(before) && m.asset != "" && m.Valid() && Representable(now)
    requires Executed(before, user, Mutate(m.asset, Purge(m)), now, after, r)
    ensures PurgeAnswer(before, user, m, now, after, r)
  {
    ExecutedByDecision(before, user, m.asset, Purge(m), now, after, r);
    if FindByAsset(before, user, m.asset).Some? {
      PurgeDecision(FindByAsset(before, user, m.asset).value, m);
    }
  }

  lemma CleanupIsAnswered(
      before: Db, user: UserId, asset: string, operation: Result<string>, now: Time, after: Db, r: Result<Row>)
    requires WellFormed(before) && asset != "" && Representable(now)
    requires Executed(before, user, Mutate(asset, Cleanup(operation)), now, after, r)
    ensures CleanupAnswer(before, user, asset, operation, now, after, r)
  {
    ExecutedByDecision(before, user, asset, Cleanup(operation), now, after, r);
    if FindByAsset(before, user, asset).Some? {
      CleanupDecides(FindByAsset(before, user, asset).value, operation, now);
    }
  }

  /** The plan of an upload by row id, by the decision on the row. */
  lemma UploadByIdPlan(before: Db, user: UserId, id: RowId, u: UploadInput, now: Time)
    requires WellFormed(before) && id in before.rows && before.rows[id].user == user
    ensures var was := before.rows[id];
      PlanOf(before, user, UploadById(id, u), now) ==
        if was.state != Active then Plan.Refused(InvalidState)
        else if u.asset != "" && was.asset != "" && u.asset != was.asset then Plan.Refused(InvalidInput)
        else if was.asset != "" then PlanMutation(was, DecideUpload(was, u), now)
        else if u.asset != "" && FindByAsset(before, user, u.asset).Some? then Plan.Refused(VectorClockConflict)
        else PlanMutation(was, DecideLegacy(was, u), now)
  {
  }

  lemma PlannedByDecision(
      before: Db, user: UserId, op: Op, was: Row, decision: Mutation, now: Time, after: Db, r: Result<Row>)
    requires was.id in before.rows && before.rows[was.id] == was && was.user == user
    requires PlanOf(before, user, op, now) == PlanMutation(was, decision, now)
    requires Executed(before, user, op, now, after, r)
    requires decision.Write? ==> decision.row.id == was.id && decision.row.user == was.user
    ensures ByDecision(before, was, decision, now, after, r)
  {
    if decision.Write? {
      OneRowExecuted(before, user, op, now, after, r, decision.row.(updatedAt := now));
      SavedIsWrote(before, r.value);
    }
  }

  lemma UploadByIdIsAnswered(before: Db, user: UserId, id: RowId, u: UploadInput, now: Time, after: Db, r: Result<Row>)
    requires WellFormed(before) && u.Valid() && Representable(now)
    requires Executed(before, user, UploadById(id, u), now, after, r)
    ensures UploadByIdAnswer(before, user, id, u, now, after, r)
  {
    if id in before.rows && before.rows[id].user == user {
      var was, op := before.rows[id], UploadById(id, u);
      UploadByIdPlan(before, user, id, u, now);
      var plan := PlanOf(before, user, op, now);
      if was.state == Active {
        UploadDecision(was, u);
        LegacyDecision(was, u);
        if plan == PlanMutation(was, DecideUpload(was, u), now) && was.asset != "" {
          PlannedByDecision(before, user, op, was, DecideUpload(was, u), now, after, r);
        }
        if plan == PlanMutation(was, DecideLegacy(was, u), now) && was.asset == "" {
          PlannedByDecision(before, user, op, was, DecideLegacy(was, u), now, after, r);
        }
      }
    }
  }
}
