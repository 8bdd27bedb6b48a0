/** The stored records of the sync protocol and the requests that change them. */
module ServerConfig {
  import opened Wrappers
  import opened Text
  import opened VectorClock

  type UserId = nat
  type RowId = nat
  type Revision = nat

  /** Nanoseconds since the Unix epoch, in UTC. */
  type Time = int

  const MILLISECOND: int := 1_000_000
  const DAY: int := 86_400_000 * MILLISECOND

  newtype byte = x: int | 0 <= x < 256
  type Bytes = seq<byte>

  const OTC2: Bytes := [79, 84, 67, 50]

  datatype State = Active | Deleted | Purged

  datatype Row = Row(
    id: RowId,
    user: UserId,
    asset: string, // "" until a client binds the legacy record to an asset
    fingerprint: string,
    blob: Bytes,
    clock: RawClock,
    state: State,
    deletedAt: Option<Time>,
    purgeAfter: Option<Time>,
    deletedBy: string,
    lastOp: string,
    revision: Revision,
    updatedAt: Time)
  {
    predicate IsDeleted() {
      state == Deleted || state == Purged
    }
  }

  /** One entry of the change log; its key in the log is the revision. */
  datatype Change = Change(user: UserId, config: RowId, asset: string, state: State, op: string)

  function ChangeOf(row: Row): Change {
    Change(row.user, row.id, row.asset, row.state, row.lastOp)
  }

  datatype Account = Account(name: string, tokenVersion: int, banned: bool, deleted: bool, passwordHash: string)

  // ---------------------------------------------------------------- requests

  /** An upload after `normalizeConfigUploadInput`. */
  datatype UploadInput = UploadInput(
    configId: Option<RowId>, asset: string, fingerprint: string, blob: Bytes, clock: RawClock)
  {
    predicate Valid() {
      blob != [] && Parses(clock)
    }

    predicate HasConfigId() {
      configId.Some? && configId.value != 0
    }
  }

  datatype AssetMutation = AssetMutation(asset: string, device: string, op: string, clock: RawClock)
  {
    predicate Valid() {
      ValidUuid(Trim(asset)) && ValidUuid(Trim(op)) && ValidUuid(Trim(device)) && Parses(clock)
    }
  }

  /** The state transitions the service runs on one locked, asset-bound row. */
  datatype Request =
    | Upload(upload: UploadInput)
    | Delete(input: AssetMutation, days: int)
    | Restore(input: AssetMutation)
    | Purge(input: AssetMutation)
    | Cleanup(operation: Result<string>) // the random operation id, or the failure to draw one
  {
    ghost predicate Valid() {
      match this
      case Upload(u) => u.Valid()
      case Delete(m, days) => m.Valid() && 7 <= days <= 3650
      case Restore(m) => m.Valid()
      case Purge(m) => m.Valid()
      case Cleanup(operation) => true
    }

    /** The clock the client sent; the cleaner sends none. */
    ghost function Sent(): RawClock
      requires !Cleanup?
    {
      if Upload? then upload.clock else input.clock
    }
  }

  /** What a transition answers: an error, success without a change, or a row to save. */
  datatype Mutation = Refuse(error: Error) | Keep | Write(row: Row)

  const CLEANUP_ACTOR := "server-cleanup"

  ghost function DecideUpload(row: Row, u: UploadInput): Mutation {
    if row.IsDeleted() then Refuse(InvalidState) else
    match Compare(u.clock, row.clock)
    case Err(_) => Refuse(InvalidInput)
    case Ok(Newer) =>
      Write(row.(blob := u.blob, clock := u.clock,
                 fingerprint := if u.fingerprint != "" then u.fingerprint else row.fingerprint))
    case Ok(Equal) =>
      if row.blob == u.blob && (u.fingerprint == "" || row.fingerprint == u.fingerprint)
      then Keep else Refuse(VectorClockConflict)
    case Ok(_) => Refuse(VectorClockConflict)
  }

  ghost function DecideDelete(row: Row, m: AssetMutation, days: int, now: Time): Mutation {
    if row.lastOp == m.op && row.IsDeleted() then Keep
    else if row.state == Purged then Refuse(AlreadyPurged)
    else
      var relation := Compare(m.clock, row.clock);
      if relation.Err? then Refuse(InvalidInput)
      else if relation.value in {Older, Equal} then Refuse(VectorClockConflict)
      else
        var clock := if relation.value == Conflict then Merge(m.clock, row.clock) else Ok(m.clock);
        if clock.Err? then Refuse(InvalidInput) else
        Write(row.(
          state := Deleted, clock := clock.value, deletedBy := Trim(m.device), lastOp := m.op,
          deletedAt := if row.deletedAt.None? then Some(now) else row.deletedAt,
          purgeAfter := if row.deletedAt.None? then Some(now + days * DAY) else row.purgeAfter))
  }

  ghost function DecideRestore(row: Row, m: AssetMutation): Mutation {
    if row.lastOp == m.op && row.state == Active then Keep
    else if row.state == Purged then Refuse(AlreadyPurged)
    else if row.state != Deleted then Refuse(InvalidState)
    else
      match Compare(m.clock, row.clock)
      case Err(_) => Refuse(InvalidInput)
      case Ok(Newer) =>
        Write(row.(state := Active, clock := m.clock, deletedAt := None, purgeAfter := None,
                   deletedBy := "", lastOp := m.op))
      case Ok(_) => Refuse(VectorClockConflict)
  }

  ghost function DecidePurge(row: Row, m: AssetMutation): Mutation {
    if row.lastOp == m.op && row.state == Purged then Keep
    else if row.state == Purged then Refuse(AlreadyPurged)
    else if row.state != Deleted then Refuse(InvalidState)
    else
      match Compare(m.clock, row.clock)
      case Err(_) => Refuse(InvalidInput)
      case Ok(Newer) =>
        Write(row.(state := Purged, clock := m.clock, blob := [], purgeAfter := None, lastOp := m.op))
      case Ok(_) => Refuse(VectorClockConflict)
  }

  /** `Truncate(time.Millisecond)` and `UnixMilli`. */
  function Truncate(now: Time): (time: Time)
    ensures time % MILLISECOND == 0 && time <= now < time + MILLISECOND
  {
    now - now % MILLISECOND
  }

  function UnixMilli(now: Time): (ms: int)
    ensures ms * MILLISECOND <= now < (ms + 1) * MILLISECOND
  {
    now / MILLISECOND
  }

  predicate Due(row: Row, now: Time) {
    row.state == Deleted && row.purgeAfter.Some? && row.purgeAfter.value <= now
  }

  ghost function DecideCleanup(row: Row, operation: Result<string>, now: Time): Mutation {
    if !Due(row, now) then Keep
    else
      match (Bump(row.clock, CLEANUP_ACTOR, UnixMilli(now)), operation)
      case (Err(e), _) => Refuse(e)
      case (Ok(_), Err(e)) => Refuse(e)
      case (Ok(clock), Ok(id)) =>
        Write(row.(state := Purged, clock := clock, blob := [], purgeAfter := None, lastOp := id))
  }

  ghost function Decide(row: Row, request: Request, now: Time): Mutation {
    match request
    case Upload(u) => DecideUpload(row, u)
    case Delete(m, days) => DecideDelete(row, m, days, now)
    case Restore(m) => DecideRestore(row, m)
    case Purge(m) => DecidePurge(row, m)
    case Cleanup(operation) => DecideCleanup(row, operation, now)
  }

  // ---------------------------------------------------------------- the shape of a row

  /** What every reachable row looks like. */
  ghost predicate Shape(row: Row) {
    && Parses(row.clock)
    && (row.asset == "" ==> row.state == Active)
    && match row.state
       case Active => row.blob != [] && row.deletedAt.None? && row.purgeAfter.None?
       case Deleted =>
         && row.blob != [] && HasPositiveEntry(row.clock)
         && row.deletedAt.Some? && row.purgeAfter.Some?
         && 7 * DAY <= row.purgeAfter.value - row.deletedAt.value <= 3650 * DAY
       case Purged => row.blob == [] && row.deletedAt.Some? && row.purgeAfter.None?
  }

  /** The cleaner's own entry has reached the largest int64. */
  ghost predicate Saturated(row: Row) {
    At(Clock(row.clock), CLEANUP_ACTOR) >= MAX_INT64
  }

  /** A time whose millisecond count fits the clock's entries. */
  predicate Representable(now: Time) {
    0 <= UnixMilli(now) <= MAX_INT64
  }

  /** The only ways one saved transition changes a row (its revision and update time aside). */
  ghost predicate RowStep(was: Row, now: Row) {
    && Shape(now)
    && was.state != Purged
    && now.id == was.id && now.user == was.user
    && (was.asset != "" ==> now.asset == was.asset)
    && (was.state == Active ==> now.state != Purged)
    && (was.state == Deleted && now.state == Deleted ==>
          now.deletedAt == was.deletedAt && now.purgeAfter == was.purgeAfter)
    && (was.state == Deleted && now.state == Active ==> StrictlyNewer(now.clock, was.clock))
    && (StrictlyNewer(now.clock, was.clock) || Rekeyed(was, now) || (now.state == Purged && Saturated(was)))
  }

  /** A master-key rotation: another ciphertext under the very same clock. */
  ghost predicate Rekeyed(was: Row, now: Row) {
    now.(revision := was.revision, updatedAt := was.updatedAt) == was.(blob := now.blob) && now.blob != []
  }

  lemma CleanupActorIsTrimmed()
    ensures Trim(CLEANUP_ACTOR) == CLEANUP_ACTOR && !Blank(CLEANUP_ACTOR)
  {
    assert TrimLeft(CLEANUP_ACTOR) == CLEANUP_ACTOR;
    assert TrimRight(CLEANUP_ACTOR) == CLEANUP_ACTOR;
  }

  lemma UploadIsRowStep(row: Row, u: UploadInput)
    requires Shape(row) && u.Valid() && DecideUpload(row, u).Write?
    ensures RowStep(row, DecideUpload(row, u).row)
  {
  }

  /** The clock of an accepted deletion: the client's own, or the join after a conflict. */
  lemma DeletionClock(sent: RawClock, stored: RawClock, clock: RawClock)
    requires Compare(sent, stored) in {Ok(Newer), Ok(Conflict)}
    requires Ok(clock) == if Compare(sent, stored) == Ok(Newer) then Ok(sent) else Merge(sent, stored)
    ensures Parses(clock) && StrictlyNewer(clock, stored) && HasPositiveEntry(clock)
  {
    if Compare(sent, stored) == Ok(Conflict) {
      MergeIsJoin(sent, stored, clock);
      ConflictMerges(sent, stored);
    } else {
      NewerIsPositive(sent, stored);
    }
  }

  /** A deletion under a newer clock: the window starts with the first one and is kept by the others. */
  lemma DeletedIsRowStep(row: Row, result: Row, days: int, now: Time)
    requires Shape(row) && row.state != Purged && row.asset != "" && 7 <= days <= 3650
    requires Parses(result.clock) && StrictlyNewer(result.clock, row.clock) && HasPositiveEntry(result.clock)
    requires result == row.(
      state := Deleted, clock := result.clock, deletedBy := result.deletedBy, lastOp := result.lastOp,
      deletedAt := if row.deletedAt.None? then Some(now) else row.deletedAt,
      purgeAfter := if row.deletedAt.None? then Some(now + days * DAY) else row.purgeAfter)
    ensures RowStep(row, result)
  {
  }

  lemma DeleteIsRowStep(row: Row, m: AssetMutation, days: int, now: Time)
    requires Shape(row) && m.Valid() && 7 <= days <= 3650 && row.asset != ""
    requires DecideDelete(row, m, days, now).Write?
    ensures RowStep(row, DecideDelete(row, m, days, now).row)
  {
    var result := DecideDelete(row, m, days, now).row;
    DeletionClock(m.clock, row.clock, result.clock);
    DeletedIsRowStep(row, result, days, now);
  }

  lemma CleanupIsRowStep(row: Row, operation: Result<string>, now: Time)
    requires Shape(row) && row.asset != "" && Representable(now)
    requires DecideCleanup(row, operation, now).Write?
    ensures RowStep(row, DecideCleanup(row, operation, now).row)
  {
    var clock := DecideCleanup(row, operation, now).row.clock;
    CleanupActorIsTrimmed();
    BumpAdvances(row.clock, CLEANUP_ACTOR, UnixMilli(now), clock);
    BumpStillParses(row.clock, UnixMilli(now), clock);
  }

  /** Every transition that writes a well-shaped row is a row step. */
  lemma DecisionIsRowStep(row: Row, request: Request, now: Time)
    requires Shape(row) && request.Valid() && row.asset != "" && Representable(now)
    requires Decide(row, request, now).Write?
    ensures RowStep(row, Decide(row, request, now).row)
  {
    match request
    case Upload(u) => UploadIsRowStep(row, u);
    case Delete(m, days) => DeleteIsRowStep(row, m, days, now);
    case Restore(m) =>
    case Purge(m) =>
    case Cleanup(operation) => CleanupIsRowStep(row, operation, now);
  }

  /** Even the wrapped-around bump leaves a clock that parses, because real times are not negative. */
  lemma BumpStillParses(raw: RawClock, minimum: int, bumped: RawClock)
    requires Bump(raw, CLEANUP_ACTOR, minimum) == Ok(bumped) && 0 <= minimum <= MAX_INT64
    ensures Parses(bumped)
  {
    CleanupActorIsTrimmed();
  }

  /** The cleaner's bump never fails on a deleted row: the clock parses and is not the nil map. */
  lemma CleanupNeverFails(row: Row, operation: Result<string>, now: Time)
    requires Shape(row) && operation.Ok?
    ensures !Decide(row, Cleanup(operation), now).Refuse?
  {
    if Due(row, now) {
      CleanupActorIsTrimmed();
      var key :| At(Clock(row.clock), key) > 0;
    }
  }
}
