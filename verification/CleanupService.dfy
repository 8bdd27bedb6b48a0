/** The cleaner: it erases expired ciphertext under the account lock, then collects old tombstones. */
module CleanupService {
  import opened Wrappers
  import opened Text
  import opened ServerConfig
  import opened Database
  import opened Evolution
  import opened Selection
  import opened Store
  import opened SystemSetting
  import opened Collection

  function DueIds(db: Db, now: Time): (ids: set<RowId>)
    ensures forall id :: id in ids <==>
      && id in db.rows && db.rows[id].state == Deleted
      && db.rows[id].purgeAfter.Some? && db.rows[id].purgeAfter.value <= now
  {
    set id | id in db.rows && Due(db.rows[id], now)
  }

  /** One transition of the cleaner: the due row of that asset is purged, and no other row changes. */
  ghost predicate Purges(before: Db, after: Db, item: Row, now: Time) {
    && before.rows.Keys == after.rows.Keys
    && exists id :: (
      && Holds(before, id, item.user, item.asset) && Due(before.rows[id], now)
      && after.rows[id].state == Purged && after.rows[id].blob == []
      && forall other | other in before.rows && other != id :: after.rows[other] == before.rows[other])
  }

  ghost predicate DueAsset(db: Db, user: UserId, asset: string, now: Time) {
    exists id :: Holds(db, id, user, asset) && Due(db.rows[id], now)
  }

  /** The history gained one transition, and it purged that item's row. */
  ghost predicate Gains(was: seq<(Db, Db)>, now: seq<(Db, Db)>, item: Row, time: Time) {
    |now| == |was| + 1 && now[..|was|] == was && Purges(now[|was|].0, now[|was|].1, item, time)
  }

  const WITNESS_UUID := "00000000-0000-4000-8000-000000000000"

  /** A random identifier, or the failure of the random source. */
  method RandomUuid() returns (r: Result<string>)
    ensures if r.Ok? then ValidUuid(r.value) else r.error == Fault
  {
    assert ValidUuid(WITNESS_UUID);
    var id: string :| ValidUuid(id);
    if * {
      return Err(Fault);
    }
    return Ok(id);
  }

  /** On a reachable row the transition keeps it, purges it, or fails for want of an operation id, never of a clock. */
  lemma CleanupDecision(row: Row, operation: Result<string>, now: Time)
    requires Shape(row)
    ensures match Decide(row, Cleanup(operation), now)
      case Keep => !Due(row, now)
      case Refuse(e) => Due(row, now) && operation == Err(e)
      case Write(next) => Due(row, now) && operation.Ok? && next.id == row.id && next.state == Purged && next.blob == []
  {
    CleanupNeverFails(row, Ok(""), now);
  }

  lemma SavedPurges(db: Db, row: Row, saved: Row, now: Time)
    requires Holds(db, row.id, row.user, row.asset) && db.rows[row.id] == row && Due(row, now)
    requires saved.id == row.id && saved.state == Purged && saved.blob == []
    ensures Purges(db, Saved(db, saved), row, now)
  {
    var after := Saved(db, saved);
    assert after.rows.Keys == db.rows.Keys;
    assert Holds(db, row.id, row.user, row.asset) && after.rows[row.id] == saved;
  }

  /** The same of the whole transaction. */
  lemma CleanupOutcome(db: Db, user: UserId, asset: string, operation: Result<string>, now: Time, revision: Revision)
    requires WellFormed(db) && asset != "" && user in db.accounts && FindByAsset(db, user, asset).Some?
    ensures var row := FindByAsset(db, user, asset).value;
      if !Due(row, now) then
        !MutationWrites(db, user, asset, Cleanup(operation), now)
        && MutationAnswer(db, user, asset, Cleanup(operation), now, revision) == Ok(row)
      else if operation.Err? then
        !MutationWrites(db, user, asset, Cleanup(operation), now)
        && MutationAnswer(db, user, asset, Cleanup(operation), now, revision) == Err(operation.error)
      else
        MutationWrites(db, user, asset, Cleanup(operation), now)
        && MutationAnswer(db, user, asset, Cleanup(operation), now, revision).Ok?
        && Purges(db, MutationAfter(db, user, asset, Cleanup(operation), now, revision), row, now)
  {
    AssetLookup(db, user, asset);
    var row := FindByAsset(db, user, asset).value;
    CleanupDecision(row, operation, now);
    if Due(row, now) && operation.Ok? {
      SavedPurges(db, row, MutationAnswer(db, user, asset, Cleanup(operation), now, revision).value, now);
    }
  }

  datatype Outcome = Turned | Left | Failed

  class Cleaner {
    const tables: Tables
    var setting: Option<StoredPolicy>

    constructor (tables: Tables, setting: Option<StoredPolicy>)
      ensures this.tables == tables && this.setting == setting
    {
      this.tables := tables;
      this.setting := setting;
    }

    /** One expired row, re-checked and purged under the lock. */
    method PurgeLocked(item: Row, now: Time) returns (outcome: Outcome)
      requires tables.Valid() && item.asset != "" && item.user in tables.accounts && Representable(now)
      modifies tables
      ensures tables.Valid() && Evolves(old(tables.Value()), tables.Value())
      ensures outcome.Turned? ==> Purges(old(tables.Value()), tables.Value(), item, now)
      ensures outcome.Turned? ==> tables.history == old(tables.history) + [(old(tables.Value()), tables.Value())]
      ensures !outcome.Turned? ==> tables.Value() == old(tables.Value()) && tables.history == old(tables.history)
      ensures outcome.Left? ==> !DueAsset(tables.Value(), item.user, item.asset, now)
    {
      ghost var before := tables.Value();
      var operation := RandomUuid();
      var r, changed;
      ghost var revision;
      r, changed, revision := tables.MutateByAssetId(item.user, item.asset, Request.Cleanup(operation), now);
      if FindByAsset(before, item.user, item.asset).Some? {
        CleanupOutcome(before, item.user, item.asset, operation, now, revision);
      }
      PurgesSameAsset(before, tables.Value(), item, now);
      if r.Err? {
        return Failed;
      }
      return if changed then Turned else Left;
    }

    /** The same after other requests may have run, and unless the database fails. */
    method PurgeOne(item: Row, now: Time, ghost quiet: bool) returns (outcome: Outcome)
      requires tables.Valid() && item.asset != "" && item.user in tables.accounts && Representable(now)
      modifies tables
      ensures tables.Valid() && Evolves(old(tables.Value()), tables.Value())
      ensures if outcome.Turned? then Gains(old(tables.history), tables.history, item, now)
              else tables.history == old(tables.history)
      ensures quiet && outcome.Turned? ==> Purges(old(tables.Value()), tables.Value(), item, now)
      ensures quiet && !outcome.Turned? ==> tables.Value() == old(tables.Value())
      ensures quiet && outcome.Left? ==> !DueAsset(tables.Value(), item.user, item.asset, now)
    {
      ghost var start := tables.Value();
      tables.Interfere(quiet);
      if * {
        return Failed;
      }
      ghost var before := tables.Value();
      outcome := PurgeLocked(item, now);
      EvolvesTransitive(start, before, tables.Value());
    }

    /**
      One pass over the expired rows. The purged count is exactly the number of rows this pass turned
      from due to purged; failures are disjoint from them, and nothing else was written. In a quiet
      pass every scanned row that did not fail was turned, and no other row changed.
     */
    method PurgeExpired(now: Time, limit: int, ghost quiet: bool)
      returns (scanned: nat, purged: nat, failed: nat,
               ghost expired: seq<Row>, ghost turned: seq<int>, ghost faulty: set<int>)
      requires tables.Valid() && Representable(now)
      modifies tables
      ensures tables.Valid() && Evolves(old(tables.Value()), tables.Value())
      ensures IsExpiredBatch(old(tables.Value()), expired, limit, now)
      ensures scanned == |expired| && purged == |turned| && failed == |faulty|
      ensures Accounted(old(tables.history), tables.history, expired, turned, |expired|, now)
      ensures forall i | i in faulty :: 0 <= i < |expired| && i !in turned
      ensures quiet ==>
        purged + failed == scanned && Handled(old(tables.Value()), tables.Value(), expired, |expired|, faulty)
    {
      ghost var start, past := tables.Value(), tables.history;
      EvolvesReflexive(start);
      var items := tables.ListExpiredDeleted(now, limit);
      expired := items;
      scanned, purged, failed := |items|, 0, 0;
      turned, faulty := [], {};
      for n := 0 to |items|
        invariant tables.Valid() && Evolves(start, tables.Value())
        invariant purged == |turned| && failed == |faulty|
        invariant forall i | i in faulty :: 0 <= i < n && i !in turned
        invariant Accounted(past, tables.history, items, turned, n, now)
        invariant quiet ==> purged + failed == n && Handled(start, tables.Value(), items, n, faulty)
      {
        var outcome;
        outcome, turned, faulty := PurgeNext(items, n, now, limit, quiet, start, past, turned, faulty);
        match outcome
        case Turned => purged := purged + 1;
        case Failed => failed := failed + 1;
        case Left =>
      }
    }

    /**
      The whole run: erase expired ciphertext, then, unless tombstones are kept for ever, collect old
      ones. A system run honours the switch; an administrator's run does not depend on it.
     */
    method Cleanup(systemRun: bool, clock: Time, ghost quiet: bool)
      returns (result: CleanupResult, ghost expired: seq<Row>, ghost turned: seq<int>, ghost faulty: set<int>,
               ghost trail: Trail)
      requires tables.Valid() && Representable(Truncate(clock))
      modifies tables
      ensures tables.Valid() && Evolves(old(tables.Value()), tables.Value())
      ensures result.enabled == CleanupEnabled(setting) && result.batchLimit == BatchSize(setting)
      ensures setting.Some? && setting.value.autoCleanupEnabled == Some(false) ==>
        !result.enabled && (systemRun ==> tables.Value() == old(tables.Value()))
      ensures setting.None? || setting.value.autoCleanupEnabled in {None, Some(true)} ==>
        result.enabled && Runs(systemRun, setting)
      ensures !Runs(systemRun, setting) ==>
        tables.Value() == old(tables.Value()) && tables.history == old(tables.history)
      ensures !Runs(systemRun, setting) ==> result == CleanupResult(false, BatchSize(setting), 0, 0, 0, 0, 0)
      ensures Runs(systemRun, setting) ==>
        IsExpiredBatch(old(tables.Value()), expired, result.batchLimit, Truncate(clock))
      ensures Runs(systemRun, setting) ==>
        Accounted(old(tables.history), tables.history, expired, turned, |expired|, Truncate(clock))
      ensures Runs(systemRun, setting) ==>
        result.scanned == |expired| && result.purged == |turned| && result.failed == |faulty|
      ensures Runs(systemRun, setting) ==> forall i | i in faulty :: 0 <= i < |expired| && i !in turned
      ensures Runs(systemRun, setting) && TombstoneDays(setting) == 0 ==>
        result.tombstonesDeleted == 0 && result.tombstonesDeferred == 0 &&
        (quiet ==> tables.rows.Keys == old(tables.rows.Keys))
      ensures Runs(systemRun, setting) && TombstoneDays(setting) > 0 ==>
        Collected(old(tables.Value()), trail, tables.Value(), setting, Truncate(clock), result, quiet)
      ensures quiet && Runs(systemRun, setting) && result.failed == 0 ==>
        DrainsBatch(old(tables.Value()), tables.Value(), Truncate(clock), result.batchLimit)
    {
      ghost var start := tables.Value();
      EvolvesReflexive(start);
      trail := Trail(start, start, start, []);
      var policy := GetAssetDeletionPolicy(setting);
      var now := Truncate(clock);
      result := CleanupResult(policy.autoCleanupEnabled, policy.cleanupBatchLimit, 0, 0, 0, 0, 0);
      expired, turned, faulty := [], [], {};
      if systemRun && !policy.autoCleanupEnabled {
        return;
      }
      var scanned, purged, failed;
      scanned, purged, failed, expired, turned, faulty := PurgeExpired(now, policy.cleanupBatchLimit, quiet);
      result := result.(scanned := scanned, purged := purged, failed := failed);
      ghost var middle := tables.Value();
      if quiet && failed == 0 {
        HandledDrains(start, middle, expired, policy.cleanupBatchLimit, now);
      }
      if policy.tombstoneRetentionDays > 0 {
        result, trail := CollectCounted(result, now, quiet);
        EvolvesTransitive(start, middle, trail.first);
        EvolvesTransitive(start, middle, tables.Value());
        if quiet && failed == 0 {
          DrainsStill(start, middle, tables.Value(), now, policy.cleanupBatchLimit);
        }
      }
    }

    /** The second half of a run. */
    method CollectCounted(purged: CleanupResult, now: Time, ghost quiet: bool)
      returns (result: CleanupResult, ghost trail: Trail)
      requires tables.Valid() && TombstoneDays(setting) > 0
      modifies tables
      ensures tables.Valid() && Evolves(old(tables.Value()), tables.Value()) && tables.history == old(tables.history)
      ensures Collected(old(tables.Value()), trail, tables.Value(), setting, now, result, quiet)
      ensures result == purged.(
        tombstonesDeleted := result.tombstonesDeleted, tombstonesDeferred := result.tombstonesDeferred)
      ensures quiet ==> DueIds(tables.Value(), now) == DueIds(old(tables.Value()), now)
    {
      var deleted, deferred;
      deleted, deferred, trail := CollectTombstones(TombstoneCutoff(setting, now), BatchSize(setting), now, quiet);
      result := purged.(tombstonesDeleted := deleted, tombstonesDeferred := deferred);
    }

    /** The collection of a run, with its counts; other requests may have run since the purge pass. */
    method CollectTombstones(cutoff: Time, limit: int, ghost now: Time, ghost quiet: bool)
      returns (deleted: nat, deferred: nat, ghost trail: Trail)
      requires tables.Valid()
      modifies tables
      ensures tables.Valid() && Evolves(old(tables.Value()), tables.Value()) && tables.history == old(tables.history)
      ensures Evolves(old(tables.Value()), trail.first)
      ensures Collects(trail, tables.Value(), cutoff, BatchLimit(limit), deleted, deferred)
      ensures quiet ==> trail.first == trail.second == trail.third
      ensures quiet ==> DueIds(tables.Value(), now) == DueIds(old(tables.Value()), now)
    {
      ghost var start := tables.Value();
      tables.Interfere(quiet);
      ghost var before := tables.Value();
      deleted, deferred, trail := tables.DeleteAcknowledgedPurgedBefore(cutoff, limit, quiet);
      EvolvesTransitive(before, trail.second, trail.third);
      EvolvesTransitive(before, trail.third, tables.Value());
      EvolvesTransitive(start, before, tables.Value());
      RemovalKeepsDue(trail.third, Eligible(trail.second, Ids(trail.candidates)), now);
    }

    method PurgeItem(items: seq<Row>, n: nat, now: Time, ghost limit: int, ghost quiet: bool,
                     ghost start: Db, ghost past: seq<(Db, Db)>, ghost turned: seq<int>, ghost faulty: set<int>)
      returns (outcome: Outcome)
      requires tables.Valid() && Representable(now) && WellFormed(start) && Evolves(start, tables.Value())
      requires IsExpiredBatch(start, items, limit, now) && n < |items| && n !in faulty
      requires Accounted(past, tables.history, items, turned, n, now)
      requires quiet ==> Handled(start, tables.Value(), items, n, faulty)
      modifies tables
      ensures tables.Valid() && Evolves(start, tables.Value())
      ensures Accounted(past, tables.history, items, if outcome.Turned? then turned + [n] else turned, n + 1, now)
      ensures quiet ==> !outcome.Left?
      ensures quiet ==> Handled(start, tables.Value(), items, n + 1, if outcome.Failed? then faulty + {n} else faulty)
    {
      ghost var before, history := tables.Value(), tables.history;
      ItemIsBound(start, items, limit, now, n);
      if quiet {
        NextIsUntouched(start, before, items, limit, now, n, faulty);
      }
      outcome := PurgeOne(items[n], now, quiet);
      EvolvesTransitive(start, before, tables.Value());
      OutcomeIsAccounted(past, history, tables.history, items, turned, n, now, outcome);
      if quiet && outcome.Turned? {
        TurnedIsHandled(start, before, tables.Value(), items, limit, now, n, faulty);
      }
      if quiet && outcome.Failed? {
        FaultIsHandled(start, before, items, n, faulty);
      }
    }

    method PurgeNext(items: seq<Row>, n: nat, now: Time, ghost limit: int, ghost quiet: bool,
                     ghost start: Db, ghost past: seq<(Db, Db)>, ghost turned: seq<int>, ghost faulty: set<int>)
      returns (outcome: Outcome, ghost moreTurned: seq<int>, ghost moreFaulty: set<int>)
      requires tables.Valid() && Representable(now) && WellFormed(start) && Evolves(start, tables.Value())
      requires IsExpiredBatch(start, items, limit, now) && n < |items|
      requires forall i | i in faulty :: 0 <= i < n && i !in turned
      requires Accounted(past, tables.history, items, turned, n, now)
      requires quiet ==> Handled(start, tables.Value(), items, n, faulty)
      modifies tables
      ensures tables.Valid() && Evolves(start, tables.Value())
      ensures |moreTurned| == |turned| + (if outcome.Turned? then 1 else 0)
      ensures |moreFaulty| == |faulty| + (if outcome.Failed? then 1 else 0)
      ensures forall i | i in moreFaulty :: 0 <= i < n + 1 && i !in moreTurned
      ensures Accounted(past, tables.history, items, moreTurned, n + 1, now)
      ensures quiet ==> !outcome.Left? && Handled(start, tables.Value(), items, n + 1, moreFaulty)
    {
      assert n !in turned;
      outcome := PurgeItem(items, n, now, limit, quiet, start, past, turned, faulty);
      moreTurned := if outcome.Turned? then turned + [n] else turned;
      moreFaulty := if outcome.Failed? then faulty + {n} else faulty;
    }
  }

  datatype CleanupResult = CleanupResult(
    enabled: bool, batchLimit: int, scanned: nat, purged: nat, failed: nat,
    tombstonesDeleted: nat, tombstonesDeferred: nat)

  /** Only a system run with the switch off does nothing. */
  predicate Runs(systemRun: bool, setting: Option<StoredPolicy>) {
    !systemRun || CleanupEnabled(setting)
  }

  function TombstoneCutoff(setting: Option<StoredPolicy>, now: Time): (cutoff: Time)
    ensures cutoff + TombstoneDays(setting) * DAY == now
  {
    now - TombstoneDays(setting) * DAY
  }

  /**
    With nobody else at work a run removes every tombstone that is old enough and acknowledged by every
    device of an account that has one, unless there are more old tombstones than the batch limit.
   */
  lemma OldTombstonesLeave(
      start: Db, t: Trail, last: Db, setting: Option<StoredPolicy>, now: Time, result: CleanupResult, aged: set<RowId>,
      id: RowId, device: Device)
    requires WellFormed(t.first) && Collected(start, t, last, setting, now, result, true)
    requires forall other :: other in aged <==>
      && other in t.first.rows && t.first.rows[other].state == Purged
      && t.first.rows[other].updatedAt <= now - TombstoneDays(setting) * DAY
    requires |aged| <= BatchSize(setting) && id in aged
    requires device in t.first.acks && device.0 == t.first.rows[id].user
    requires forall key | key in t.first.acks && key.0 == t.first.rows[id].user ::
      t.first.acks[key] >= t.first.rows[id].revision
    ensures id !in last.rows
  {
    AllCandidates(t.first, TombstoneCutoff(setting, now), BatchLimit(BatchSize(setting)), t.candidates, aged);
    CandidateIsRemoved(t.first, Ids(t.candidates), id, device);
  }

  lemma DrainsStill(before: Db, middle: Db, after: Db, now: Time, limit: int)
    requires DrainsBatch(before, middle, now, limit) && DueIds(after, now) == DueIds(middle, now)
    ensures DrainsBatch(before, after, now, limit)
  {
  }

  /** A collection that began after the purge pass, under the cutoff and the limit of the policy, with its counts. */
  ghost predicate Collected(
      start: Db, t: Trail, last: Db, setting: Option<StoredPolicy>, now: Time, result: CleanupResult, quiet: bool)
  {
    && Evolves(start, t.first) && (quiet ==> t.first == t.second == t.third)
    && Collects(t, last, TombstoneCutoff(setting, now), BatchLimit(BatchSize(setting)),
                result.tombstonesDeleted, result.tombstonesDeferred)
  }

  // ---------------------------------------------------------------- drain

  /** A run without failures turned a full batch of the due rows, or all of them if there were fewer. */
  ghost predicate DrainsBatch(before: Db, after: Db, now: Time, limit: int) {
    && DueIds(after, now) <= DueIds(before, now)
    && |DueIds(after, now)| == if |DueIds(before, now)| <= limit then 0 else |DueIds(before, now)| - limit
  }

  lemma RemovalKeepsDue(db: Db, ids: set<RowId>, now: Time)
    ensures DueIds(db.(rows := db.rows - Removed(db, ids)), now) == DueIds(db, now)
  {
  }

  lemma HandledDrains(start: Db, after: Db, expired: seq<Row>, limit: int, now: Time)
    requires WellFormed(start) && 0 < limit <= 5000 && IsExpiredBatch(start, expired, limit, now)
    requires Handled(start, after, expired, |expired|, {})
    ensures DrainsBatch(start, after, now, limit)
  {
    var due := DueIds(start, now);
    SelectionSize(start.rows, (row: Row) => Due(row, now), (row: Row) => PurgeTime(row), limit, expired, due);
    HandledLeavesDue(start, after, expired, now);
    DifferenceSize(due, Ids(expired));
  }

  lemma HandledLeavesDue(start: Db, after: Db, expired: seq<Row>, now: Time)
    requires Handled(start, after, expired, |expired|, {}) && Ids(expired) <= DueIds(start, now)
    ensures DueIds(after, now) == DueIds(start, now) - Ids(expired)
  {
    forall id | id in start.rows ensures id in DueIds(after, now) <==> id in DueIds(start, now) - Ids(expired) {
      if id in Ids(expired) {
        var i :| 0 <= i < |expired| && expired[i].id == id;
      }
    }
  }

  /** Without failures and at a fixed time, `n` due rows are gone after `ceil(n / limit)` runs. */
  lemma {:induction false} DueRowsDrain(dbs: seq<Db>, now: Time, limit: int, k: nat)
    requires limit > 0 && k < |dbs| && forall i :: 0 <= i < |dbs| - 1 ==> DrainsBatch(dbs[i], dbs[i + 1], now, limit)
    ensures |DueIds(dbs[k], now)| == if |DueIds(dbs[0], now)| <= k * limit then 0 else |DueIds(dbs[0], now)| - k * limit
    ensures k * limit >= |DueIds(dbs[0], now)| ==> DueIds(dbs[k], now) == {}
  {
    if k > 0 {
      DueRowsDrain(dbs, now, limit, k - 1);
      assert k * limit == (k - 1) * limit + limit;
      assert DrainsBatch(dbs[k - 1], dbs[k], now, limit);
    }
  }

  // ---------------------------------------------------------------- accounting

  /** Since `past`, the history gained one transition per turned item, in order, and no other. */
  ghost predicate Accounted(
      past: seq<(Db, Db)>, history: seq<(Db, Db)>, items: seq<Row>, turned: seq<int>, n: nat, now: Time)
    requires n <= |items|
  {
    && |history| == |past| + |turned| && history[..|past|] == past
    && (forall k :: 0 <= k < |turned| ==>
          0 <= turned[k] < n && Purges(history[|past| + k].0, history[|past| + k].1, items[turned[k]], now))
    && (forall k, l :: 0 <= k < l < |turned| ==> turned[k] < turned[l])
  }

  lemma GainIsAccounted(
      past: seq<(Db, Db)>, was: seq<(Db, Db)>, history: seq<(Db, Db)>, items: seq<Row>, turned: seq<int>, n: nat,
      now: Time)
    requires n < |items| && Accounted(past, was, items, turned, n, now) && Gains(was, history, items[n], now)
    ensures Accounted(past, history, items, turned + [n], n + 1, now)
  {
    assert forall k :: 0 <= k < |was| ==> history[k] == history[..|was|][k];
    assert history[..|past|] == was[..|past|];
  }

  lemma OutcomeIsAccounted(past: seq<(Db, Db)>, was: seq<(Db, Db)>, history: seq<(Db, Db)>, items: seq<Row>,
                           turned: seq<int>, n: nat, now: Time, outcome: Outcome)
    requires n < |items| && Accounted(past, was, items, turned, n, now)
    requires if outcome.Turned? then Gains(was, history, items[n], now) else history == was
    ensures Accounted(past, history, items, if outcome.Turned? then turned + [n] else turned, n + 1, now)
  {
    if outcome.Turned? {
      GainIsAccounted(past, was, history, items, turned, n, now);
    }
  }

  /** The rows a quiet pass has handled so far: purged unless faulty, and nothing else touched. */
  ghost predicate Handled(start: Db, db: Db, expired: seq<Row>, n: nat, faulty: set<int>)
    requires n <= |expired|
  {
    && db.rows.Keys == start.rows.Keys
    && (forall i | 0 <= i < n && i !in faulty ::
          expired[i].id in db.rows && db.rows[expired[i].id].state == Purged && db.rows[expired[i].id].blob == [])
    && (forall id | id in start.rows && (forall i | 0 <= i < n && i !in faulty :: expired[i].id != id) ::
          db.rows[id] == start.rows[id])
  }

  ghost predicate IsExpiredBatch(start: Db, expired: seq<Row>, limit: int, now: Time) {
    IsSelection(start.rows, (row: Row) => Due(row, now), (row: Row) => PurgeTime(row), BatchLimit(limit), expired)
  }

  lemma ItemIsBound(start: Db, expired: seq<Row>, limit: int, now: Time, n: nat)
    requires WellFormed(start) && IsExpiredBatch(start, expired, limit, now) && n < |expired|
    ensures expired[n].asset != "" && expired[n].user in start.accounts
    ensures Holds(start, expired[n].id, expired[n].user, expired[n].asset) && Due(start.rows[expired[n].id], now)
  {
  }

  /** In a quiet pass the next item is still exactly as it was selected. */
  lemma NextIsUntouched(start: Db, db: Db, expired: seq<Row>, limit: int, now: Time, n: nat, faulty: set<int>)
    requires WellFormed(start) && IsExpiredBatch(start, expired, limit, now)
    requires n < |expired| && Handled(start, db, expired, n, faulty)
    ensures expired[n].id in db.rows && db.rows[expired[n].id] == expired[n]
    ensures DueAsset(db, expired[n].user, expired[n].asset, now)
  {
    assert Holds(db, expired[n].id, expired[n].user, expired[n].asset);
  }

  lemma PurgesExactly(db: Db, after: Db, item: Row, now: Time)
    requires WellFormed(db) && Holds(db, item.id, item.user, item.asset) && item.asset != ""
    requires Purges(db, after, item, now)
    ensures item.id in after.rows && after.rows[item.id].state == Purged && after.rows[item.id].blob == []
    ensures after.rows.Keys == db.rows.Keys
    ensures forall id | id in db.rows && id != item.id :: after.rows[id] == db.rows[id]
  {
  }

  lemma TurnedIsHandled(
      start: Db, db: Db, after: Db, expired: seq<Row>, limit: int, now: Time, n: nat, faulty: set<int>)
    requires WellFormed(start) && WellFormed(db) && IsExpiredBatch(start, expired, limit, now)
    requires n < |expired| && Handled(start, db, expired, n, faulty) && n !in faulty
    requires Purges(db, after, expired[n], now)
    ensures Handled(start, after, expired, n + 1, faulty)
  {
    NextIsUntouched(start, db, expired, limit, now, n, faulty);
    ItemIsBound(start, expired, limit, now, n);
    PurgesExactly(db, after, expired[n], now);
    HandledOneMore(start, db, after, expired, n, faulty);
  }

  lemma HandledOneMore(start: Db, db: Db, after: Db, expired: seq<Row>, n: nat, faulty: set<int>)
    requires n < |expired| && Handled(start, db, expired, n, faulty) && n !in faulty
    requires expired[n].id in after.rows && after.rows[expired[n].id].state == Purged
    requires after.rows[expired[n].id].blob == []
    requires after.rows.Keys == db.rows.Keys
    requires forall id | id in db.rows && id != expired[n].id :: after.rows[id] == db.rows[id]
    ensures Handled(start, after, expired, n + 1, faulty)
  {
  }

  lemma FaultIsHandled(start: Db, db: Db, expired: seq<Row>, n: nat, faulty: set<int>)
    requires n < |expired| && Handled(start, db, expired, n, faulty) && n !in faulty
    ensures Handled(start, db, expired, n + 1, faulty + {n})
  {
  }

  lemma PurgesSameAsset(before: Db, after: Db, item: Row, now: Time)
    requires WellFormed(before) && item.asset != ""
    ensures
      (&& FindByAsset(before, item.user, item.asset).Some?
       && Purges(before, after, FindByAsset(before, item.user, item.asset).value, now)) ==>
      Purges(before, after, item, now)
    ensures DueAsset(before, item.user, item.asset, now) <==>
      FindByAsset(before, item.user, item.asset).Some? && Due(FindByAsset(before, item.user, item.asset).value, now)
  {
    AssetLookup(before, item.user, item.asset);
  }
}
