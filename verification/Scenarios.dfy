/** Whole runs from the empty database that reach what the theorems single out. */
module Scenarios {
  import opened Wrappers
  import opened Text
  import opened VectorClock
  import opened ServerConfig
  import opened Database
  import opened Evolution
  import opened Lifecycle
  import opened RunSafety
  import opened Store
  import opened Sync
  import opened Collection
  import opened Departures
  import Replay

  const EMPTY := Db(map[], map[], map[], map[])
  const OWNER := Account("owner", 0, false, false, "")
  const USER: UserId := 1

  /** The run leads from the empty database to this one, without collecting anything. */
  ghost predicate Reaches(steps: seq<Step>, db: Db) {
    && ValidRun(EMPTY, steps) && After(EMPTY, steps) == db && WellFormed(db)
    && forall i :: 0 <= i < |steps| ==> !steps[i].Collect?
  }

  lemma Extend(steps: seq<Step>, db: Db, step: Step, next: Db) returns (more: seq<Step>)
    requires Reaches(steps, db) && ValidStep(db, step) && Next(db, step) == next && !step.Collect?
    ensures more == steps + [step] && Reaches(more, next)
  {
    more := steps + [step];
    OneStepRun(db, step);
    RunsCompose(EMPTY, steps, [step]);
    StepIsLawful(db, step);
  }

  // ---------------------------------------------------------------- requests

  function Entry(key: string, n: int): RawClock {
    Encode(map[key := n])
  }

  lemma EntryIsClock(key: string, n: int)
    requires !Blank(key) && 0 <= n <= MAX_INT64
    ensures Parses(Entry(key, n))
  {
  }

  lemma EntryIsNewer(key: string, low: int, high: int)
    requires 0 <= low < high
    ensures StrictlyNewer(Entry(key, high), Entry(key, low))
  {
    assert At(Clock(Entry(key, high)), key) > At(Clock(Entry(key, low)), key);
  }

  function Input(asset: string, clock: RawClock): UploadInput {
    UploadInput(None, asset, "", [1], clock)
  }

  function Mutation(op: string, clock: RawClock): AssetMutation {
    AssetMutation(ONE_UUID, TWO_UUID, op, clock)
  }

  lemma OneIsUuid()
    ensures ValidUuid(Trim(ONE_UUID)) && ONE_UUID != ""
  {
    assert ValidUuid(ONE_UUID);
    UuidIsTrimmed(ONE_UUID);
  }

  lemma TwoIsUuid()
    ensures ValidUuid(Trim(TWO_UUID))
  {
    assert ValidUuid(TWO_UUID);
    UuidIsTrimmed(TWO_UUID);
  }

  lemma MutationIsValid(op: string, clock: RawClock)
    requires op in {ONE_UUID, TWO_UUID} && Parses(clock)
    ensures Mutation(op, clock).Valid()
  {
    OneIsUuid();
    TwoIsUuid();
  }

  // ---------------------------------------------------------------- the beginning of each run

  lemma EmptyIsReached()
    ensures Reaches([], EMPTY)
  {
  }

  lemma OwnerIsReached() returns (steps: seq<Step>, db: Db)
    ensures Reaches(steps, db) && db == Db(map[], map[], map[], map[USER := OWNER])
  {
    EmptyIsReached();
    db := Db(map[], map[], map[], map[USER := OWNER]);
    steps := Extend([], EMPTY, SetAccount(USER, OWNER), db);
  }

  /** A first upload under row id 1 and revision 1. */
  lemma UploadIsReached(u: UploadInput) returns (steps: seq<Step>, db: Db, row: Row)
    requires u.Valid()
    ensures row == NewRow(USER, 1, u, 0).(revision := 1)
    ensures Reaches(steps, db) && USER in db.accounts && db.rows == map[1 := row] && db.acks == map[]
  {
    var first, before := OwnerIsReached();
    var created := NewRow(USER, 1, u, 0);
    row := created.(revision := 1);
    FirstUploadPlan(before, u);
    var step := OneRowCommit(before, USER, Create(1, u), 0, created, 1);
    db := Saved(before, row);
    steps := Extend(first, before, step, db);
  }

  lemma FirstUploadPlan(db: Db, u: UploadInput)
    requires db.rows == map[] && USER in db.accounts
    ensures PlanOf(db, USER, Create(1, u), 0) == Plan.Save(map[1 := NewRow(USER, 1, u, 0)], false)
  {
    assert FindByAsset(db, USER, u.asset).None?;
  }

  lemma OnlyRow(db: Db, row: Row)
    requires WellFormed(db) && db.rows == map[1 := row]
    ensures 1 in db.rows && db.rows[1] == row && row.id == 1 && Shape(row) && row.user in db.accounts
  {
    assert 1 in db.rows;
  }

  lemma OnlyRowSaved(db: Db, row: Row, saved: Row)
    requires db.rows == map[1 := row] && saved.id == 1
    ensures Saved(db, saved).rows == map[1 := saved] && Saved(db, saved).acks == db.acks
  {
  }

  /** One more accepted request about the only row there is. */
  lemma MutationIsReached(before: seq<Step>, db: Db, row: Row, request: Request, now: Time)
    returns (steps: seq<Step>, next: Db, saved: Row)
    requires Reaches(before, db) && db.rows == map[1 := row] && row.asset == ONE_UUID && row.user == USER
    requires request.Valid() && Representable(now) && Decide(row, request, now).Write?
    ensures |steps| > 0 && steps[..|steps| - 1] == before && Reaches(steps, next)
    ensures saved == Decide(row, request, now).row.(updatedAt := now, revision := saved.revision)
    ensures next.rows == map[1 := saved] && next.acks == db.acks
    ensures saved.id == 1 && saved.user == USER && saved.asset == ONE_UUID
    ensures steps[|steps| - 1].Locked? && steps[|steps| - 1].op == Mutate(ONE_UUID, request)
  {
    OnlyRow(db, row);
    var step;
    step, saved := Replay.CommittedMutation(db, USER, ONE_UUID, 1, request, now);
    OnlyRowSaved(db, row, saved);
    next := Saved(db, saved);
    steps := Extend(before, db, step, next);
  }

  lemma FirstDeletion(row: Row, d: AssetMutation, days: int, now: Time)
    requires row.state == Active && row.deletedAt.None?
    requires Parses(row.clock) && Parses(d.clock) && StrictlyNewer(d.clock, row.clock)
    ensures DecideDelete(row, d, days, now) == Write(row.(
      state := Deleted, clock := d.clock, deletedBy := Trim(d.device), lastOp := d.op,
      deletedAt := Some(now), purgeAfter := Some(now + days * DAY)))
  {
  }

  lemma FirstDeletionIsReached(before: seq<Step>, db: Db, row: Row, d: AssetMutation)
    returns (steps: seq<Step>, next: Db, saved: Row)
    requires Reaches(before, db) && db.rows == map[1 := row] && row.asset == ONE_UUID && row.user == USER
    requires row.state == Active && row.deletedAt.None? && d.Valid()
    requires Parses(row.clock) && StrictlyNewer(d.clock, row.clock)
    ensures Reaches(steps, next) && next.rows == map[1 := saved] && next.acks == db.acks
    ensures saved.id == 1 && saved.user == USER && saved.asset == ONE_UUID && saved.state == Deleted
    ensures saved.clock == d.clock && saved.purgeAfter == Some(0 + 7 * DAY)
  {
    FirstDeletion(row, d, 7, 0);
    steps, next, saved := MutationIsReached(before, db, row, Delete(d, 7), 0);
  }

  /** The asset deleted, under any clock above its first. */
  lemma DeletionIsReached(key: string, n: int) returns (steps: seq<Step>, db: Db, row: Row)
    requires !Blank(key) && 1 < n <= MAX_INT64
    ensures Reaches(steps, db) && db.rows == map[1 := row] && db.acks == map[]
    ensures row.id == 1 && row.user == USER && row.asset == ONE_UUID && row.state == Deleted
    ensures row.clock == Entry(key, n) && row.purgeAfter == Some(0 + 7 * DAY)
  {
    EntryIsClock(key, 1);
    EntryIsClock(key, n);
    EntryIsNewer(key, 1, n);
    OneIsUuid();
    MutationIsValid(ONE_UUID, Entry(key, n));
    var before, active, created := UploadIsReached(Input(ONE_UUID, Entry(key, 1)));
    steps, db, row := FirstDeletionIsReached(before, active, created, Mutation(ONE_UUID, Entry(key, n)));
  }

  // ---------------------------------------------------------------- a clock that falls back

  /** A client may send the cleaner's own entry at its largest value; seven days later the cleaner wraps it. */
  lemma SaturatedCleanupIsReached() returns (steps: seq<Step>, before: Db, after: Db, id: RowId)
    ensures |steps| > 0 && Reaches(steps[..|steps| - 1], before) && Reaches(steps, after)
    ensures id in before.rows && id in after.rows && steps[|steps| - 1].Locked? && steps[|steps| - 1].op.Mutate?
    ensures steps[|steps| - 1].op.request.Cleanup?
    ensures !Leq(before.rows[id].clock, after.rows[id].clock)
  {
    CleanupActorIsTrimmed();
    var first, db, row := DeletionIsReached(CLEANUP_ACTOR, MAX_INT64);
    assert At(Clock(row.clock), CLEANUP_ACTOR) == MAX_INT64;
    assert Indexed(db, 1);
    CleanupFallsBackIff(row, "op", 8 * DAY);
    var saved;
    steps, after, saved := MutationIsReached(first, db, row, Cleanup(Ok("op")), 8 * DAY);
    before, id := db, 1;
  }

  // ---------------------------------------------------------------- resets without a restored backup

  lemma NewerPurgeIsWritten(row: Row, m: AssetMutation)
    requires row.state == Deleted && Parses(row.clock) && Parses(m.clock) && StrictlyNewer(m.clock, row.clock)
    ensures DecidePurge(row, m).Write? && DecidePurge(row, m).row.state == Purged
  {
  }

  lemma OnlyRowIsMax(db: Db, row: Row)
    requires db.rows == map[1 := row] && row.user == USER
    ensures IsMaxRevision(db, USER, row.revision)
  {
    assert 1 in db.rows;
  }

  /** The account's only device acknowledges its newest row. */
  lemma AckIsReached(before: seq<Step>, db: Db, row: Row) returns (steps: seq<Step>, next: Db)
    requires Reaches(before, db) && db.rows == map[1 := row] && db.acks == map[] && row.user == USER
    ensures Reaches(steps, next) && next.rows == db.rows && AllAcknowledged(next, row)
  {
    var step := Ack(USER, TWO_UUID, row.revision);
    assert Indexed(db, 1) && Logged(db, USER, row.revision);
    next := Next(db, step);
    steps := Extend(before, db, step, next);
    assert (USER, TWO_UUID) in next.acks;
  }

  lemma TombstoneIsReached() returns (steps: seq<Step>, db: Db, row: Row)
    ensures Reaches(steps, db) && db.rows == map[1 := row] && db.acks == map[] && row.user == USER
    ensures row.state == Purged
  {
    assert !Blank("a");
    EntryIsClock("a", 2);
    EntryIsClock("a", 3);
    EntryIsNewer("a", 2, 3);
    var before, deleted, tomb := DeletionIsReached("a", 2);
    var request := Purge(Mutation(TWO_UUID, Entry("a", 3)));
    MutationIsValid(TWO_UUID, Entry("a", 3));
    NewerPurgeIsWritten(tomb, request.input);
    steps, db, row := MutationIsReached(before, deleted, tomb, request, 0);
  }

  /**
    Cause one: a client that has caught up, and has acknowledged everything, is asked to reset once the
    collector has removed the newest tombstone, which is old enough and acknowledged by every device.
   */
  lemma CollectionCausesReset() returns (steps: seq<Step>, db: Db, row: Row, after: Db)
    ensures Reaches(steps, db) && db.rows == map[1 := row] && IsMaxRevision(db, USER, row.revision)
    ensures Expired(row, row.updatedAt) && AllAcknowledged(db, row)
    ensures ValidStep(db, Collect({1})) && Removed(db, Eligible(db, {1})) == {1} && after == Next(db, Collect({1}))
    ensures ValidRun(EMPTY, steps + [Collect({1})]) && CollectsCleared(EMPTY, steps + [Collect({1})])
    ensures IsMaxRevision(after, USER, 0) && IsPull(after, after, USER, row.revision, 100, RESET)
  {
    var before, purged;
    before, purged, row := TombstoneIsReached();
    steps, db := AckIsReached(before, purged, row);
    OnlyRowIsMax(db, row);
    OnlyRow(db, row);
    assert Removed(db, Eligible(db, {1})) == {1};
    CollectedRun(steps, db);
    after := Next(db, Collect({1}));
    assert after.rows == map[];
    assert Indexed(db, 1);
    ResetAnswered(after, after, USER, row.revision, 100, 0);
  }

  lemma CollectedRun(steps: seq<Step>, db: Db)
    requires Reaches(steps, db) && Removed(db, Eligible(db, {1})) == {1}
    ensures ValidStep(db, Collect({1}))
    ensures ValidRun(EMPTY, steps + [Collect({1})]) && CollectsCleared(EMPTY, steps + [Collect({1})])
  {
    PrefixRun(EMPTY, steps, |steps|);
    var step := CollectorStepIsCleared(EMPTY, steps, |steps|, {1});
  }

  /** Cause two: the owner deletes the newest row, which is not bound to an asset. */
  lemma LegacyDeleteCausesReset() returns (steps: seq<Step>, db: Db, row: Row, step: Step, after: Db)
    ensures Reaches(steps, db) && db.rows == map[1 := row] && IsMaxRevision(db, USER, row.revision)
    ensures ValidStep(db, step) && IsLegacyDelete(step, row) && after == Next(db, step)
    ensures IsMaxRevision(after, USER, 0) && IsPull(after, after, USER, row.revision, 100, RESET)
  {
    EntryIsClock("a", 1);
    assert !Blank("a");
    steps, db, row := UploadIsReached(Input("", Entry("a", 1)));
    OnlyRowIsMax(db, row);
    step := LegacyStep(db, row);
    after := Next(db, step);
    ResetAnswered(after, after, USER, row.revision, 100, 0);
  }

  lemma LegacyStep(db: Db, row: Row) returns (step: Step)
    requires WellFormed(db) && db.rows == map[1 := row] && row.user == USER && row.asset == "" && USER in db.accounts
    ensures ValidStep(db, step) && IsLegacyDelete(step, row) && Next(db, step).rows == map[]
  {
    var op := LegacyDelete(1);
    step := Locked(USER, op, map[], 0);
    assert 1 in db.rows && db.rows[1] == row;
    StepExecutes(db, USER, op, map[], 0, Drop(1));
  }
}
