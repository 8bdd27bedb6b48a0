/**
  The cipher-V2 migration: every open ciphertext of an account moves to the OTC2 format at once, or
  none does. All rows are checked before the first is written.
 */
module CryptoMigration {
  import opened Wrappers
  import opened Text
  import opened VectorClock
  import opened ServerConfig
  import opened Database
  import opened Evolution
  import opened Selection
  import opened Store
  import opened Snapshot

  const NO_CLOCK := RawClock("", Malformed)

  /** What a lookup of a missing identifier yields. */
  const NO_ITEM := MigrationItem(0, NO_CLOCK, [], [], NO_CLOCK)

  predicate Usable(item: MigrationItem) {
    item.id != 0 && item.expectedClock.spelling != "" && item.blob != [] && item.nextClock.spelling != ""
  }

  function Lookup(byId: map<RowId, MigrationItem>, id: RowId): MigrationItem {
    if id in byId then byId[id] else NO_ITEM
  }

  predicate Current(byId: map<RowId, MigrationItem>, config: Row, sha256: Bytes -> Digest) {
    var replacement := Lookup(byId, config.id);
    config.clock == replacement.expectedClock && sha256(config.blob) == replacement.expectedDigest
  }

  /** The first loop writes nothing. */
  method CheckEach(configs: seq<Row>, byId: map<RowId, MigrationItem>, sha256: Bytes -> Digest) returns (done: nat)
    ensures done <= |configs| && forall n :: 0 <= n < done ==> Current(byId, configs[n], sha256)
    ensures done < |configs| ==> !Current(byId, configs[done], sha256)
  {
    for n := 0 to |configs|
      invariant forall i :: 0 <= i < n ==> Current(byId, configs[i], sha256)
    {
      if !Current(byId, configs[n], sha256) {
        return n;
      }
    }
    return |configs|;
  }

  /**
    The checks together: equal length, no duplicates, and a match for every row of the snapshot. A row
    that is missing from the list is caught because a stored clock is never the empty text.
   */
  lemma ChecksMatch(
      base: Db, user: UserId, configs: seq<Row>, items: seq<MigrationItem>, byId: map<RowId, MigrationItem>,
      sha256: Bytes -> Digest)
    requires WellFormed(base) && IsSnapshot(base, user, configs) && |configs| == |items| && items != []
    requires Indexes(byId, items, MigrationId, Usable)
    requires forall n :: 0 <= n < |configs| ==> Current(byId, configs[n], sha256)
    ensures MigrationMatches(base, user, items, sha256)
  {
    var ids := MigrationIds(items);
    forall n | 0 <= n < |configs| ensures configs[n].id in ids {
      assert Current(byId, configs[n], sha256) && Shape(base.rows[configs[n].id]);
    }
    CountedSnapshot(base, user, configs, ids);
    forall i | 0 <= i < |items| ensures MoveMatches(base, items[i], sha256) {
      assert ids[i] in OpenRows(base, user);
      assert items[i].id in Ids(configs);
      var k :| 0 <= k < |configs| && configs[k].id == items[i].id;
      assert Current(byId, configs[k], sha256) && Usable(items[i]) && byId[configs[k].id] == items[i];
    }
  }

  /** And an exact snapshot passes them all. */
  lemma MatchChecks(
      base: Db, user: UserId, configs: seq<Row>, items: seq<MigrationItem>, sha256: Bytes -> Digest)
    requires IsSnapshot(base, user, configs) && MigrationMatches(base, user, items, sha256)
    ensures |configs| == |items|
    ensures forall byId: map<RowId, MigrationItem>, n ::
      Indexes(byId, items, MigrationId, Usable) && 0 <= n < |configs| ==> Current(byId, configs[n], sha256)
  {
    ExactSnapshotCounts(base, user, configs, MigrationIds(items));
    forall byId: map<RowId, MigrationItem>, n | Indexes(byId, items, MigrationId, Usable) && 0 <= n < |configs|
      ensures Current(byId, configs[n], sha256)
    {
      var i := IndexOf(MigrationIds(items), configs[n].id);
      assert MoveMatches(base, items[i], sha256) && byId[configs[n].id] == items[i];
    }
  }

  lemma MatchIsUsable(base: Db, user: UserId, items: seq<MigrationItem>, sha256: Bytes -> Digest)
    requires MigrationMatches(base, user, items, sha256)
    ensures DistinctIds(MigrationIds(items)) && forall i :: 0 <= i < |items| ==> Usable(items[i])
  {
    forall i | 0 <= i < |items| ensures Usable(items[i]) {
      assert MoveMatches(base, items[i], sha256);
    }
  }

  // ---------------------------------------------------------------- the second loop

  ghost predicate IsMoved(config: Row, item: MigrationItem, row: Row, now: Time) {
    row == config.(blob := item.blob, clock := item.nextClock, updatedAt := now, revision := row.revision)
  }

  /** The rows written so far: each is its snapshot row moved, under the next drawn revision. */
  ghost predicate Moved(
      byId: map<RowId, MigrationItem>, configs: seq<Row>, written: seq<Row>, first: Revision, now: Time)
    requires |written| <= |configs|
  {
    forall i :: 0 <= i < |written| ==>
      IsMoved(configs[i], Lookup(byId, configs[i].id), written[i], now) && written[i].revision == first + 1 + i
  }

  method MigrateEach(tables: Tables, configs: seq<Row>, byId: map<RowId, MigrationItem>, now: Time, ghost base: Db)
    returns (ghost written: seq<Row>)
    requires tables.SequencesAhead() && base == tables.Value()
    requires forall i :: 0 <= i < |configs| ==> configs[i].id <= tables.lastRow
    modifies tables`rows, tables`log, tables`lastRevision
    ensures tables.SequencesAhead() && tables.Value() == WriteAll(base, written)
    ensures |written| == |configs| && Moved(byId, configs, written, old(tables.lastRevision), now)
  {
    ghost var first := tables.lastRevision;
    written := [];
    for n := 0 to |configs|
      invariant |written| == n && tables.lastRevision == first + n && tables.SequencesAhead()
      invariant tables.Value() == WriteAll(base, written) && Moved(byId, configs, written, first, now)
    {
      var replacement := Lookup(byId, configs[n].id);
      var config := configs[n].(blob := replacement.blob, clock := replacement.nextClock);
      var row := WriteNext(tables, config, now, base, written);
      written := written + [row];
    }
  }

  lemma MovedAreDistinct(
      configs: seq<Row>, byId: map<RowId, MigrationItem>, written: seq<Row>, first: Revision, now: Time)
    requires forall i, j :: 0 <= i < j < |configs| ==> configs[i].id < configs[j].id
    requires |written| == |configs| && Moved(byId, configs, written, first, now)
    ensures DistinctRows(written) && Drawn(written, first) && Ids(written) == Ids(configs)
    ensures forall i :: 0 <= i < |written| ==> written[i].id == configs[i].id
  {
    forall i | 0 <= i < |written| ensures written[i].id == configs[i].id && written[i].revision == first + 1 + i {
      assert IsMoved(configs[i], Lookup(byId, configs[i].id), written[i], now);
    }
  }

  /** The rows of the loop, by identifier. */
  lemma StagedMoves(
      configs: seq<Row>, byId: map<RowId, MigrationItem>, written: seq<Row>, first: Revision, now: Time,
      staged: map<RowId, Row>)
    requires |written| == |configs| && Moved(byId, configs, written, first, now)
    requires forall i :: 0 <= i < |written| ==> written[i].id == configs[i].id
    requires forall i :: 0 <= i < |written| ==> written[i].id in staged && staged[written[i].id] == written[i]
    ensures forall k :: 0 <= k < |configs| ==>
      configs[k].id in staged && IsMoved(configs[k], Lookup(byId, configs[k].id), staged[configs[k].id], now)
  {
    forall k | 0 <= k < |configs|
      ensures configs[k].id in staged && IsMoved(configs[k], Lookup(byId, configs[k].id), staged[configs[k].id], now)
    {
      assert written[k].id in staged && IsMoved(configs[k], Lookup(byId, configs[k].id), written[k], now);
    }
  }

  // ---------------------------------------------------------------- the transaction

  lemma PlannedMove(
      base: Db, user: UserId, config: Row, items: seq<MigrationItem>, byId: map<RowId, MigrationItem>,
      sha256: Bytes -> Digest, row: Row, now: Time)
    requires MigrationMatches(base, user, items, sha256) && Indexes(byId, items, MigrationId, Usable)
    requires config.id in OpenRows(base, user) && base.rows[config.id] == config
    requires IsMoved(config, Lookup(byId, config.id), row, now)
    ensures IsStampOf(row, MigratedRows(base, user, items, now)[config.id])
  {
    var ids := MigrationIds(items);
    assert config.id in ids;
    assert byId[config.id] == items[IndexOf(ids, config.id)];
  }

  lemma CompletedStages(
      base: Db, user: UserId, configs: seq<Row>, items: seq<MigrationItem>, byId: map<RowId, MigrationItem>,
      sha256: Bytes -> Digest, staged: map<RowId, Row>, planned: map<RowId, Row>, now: Time)
    requires Covers(base, user, configs) && Indexes(byId, items, MigrationId, Usable)
    requires MigrationMatches(base, user, items, sha256)
    requires planned == MigratedRows(base, user, items, now) && staged.Keys == Ids(configs)
    requires forall k :: 0 <= k < |configs| ==>
      configs[k].id in staged && IsMoved(configs[k], Lookup(byId, configs[k].id), staged[configs[k].id], now)
    ensures StagesPlan(staged, planned)
  {
    forall k | 0 <= k < |configs|
      ensures configs[k].id in Ids(configs) && configs[k].id in planned
      ensures IsStampOf(staged[configs[k].id], planned[configs[k].id])
    {
      assert configs[k].id in Ids(configs);
      PlannedMove(base, user, configs[k], items, byId, sha256, staged[configs[k].id], now);
    }
    StagesEach(configs, staged, planned);
  }

  /** One step of the specification, or nothing. */
  ghost predicate Migrated(
      before: Db, user: UserId, items: seq<MigrationItem>, sha256: Bytes -> Digest, now: Time, after: Db,
      revisions: map<RowId, Revision>, r: Result<()>)
  {
    match PlanOf(before, user, Op.Migrate(items, sha256), now)
    case Refused(e) => r == Err(e) && after == before
    case Save(_, _) =>
      && ValidStep(before, Locked(user, Op.Migrate(items, sha256), revisions, now))
      && after == Next(before, Locked(user, Op.Migrate(items, sha256), revisions, now))
      && r == Ok(())
    case _ => false
  }

  lemma MigrationRefuses(
      db: Db, user: UserId, items: seq<MigrationItem>, sha256: Bytes -> Digest, now: Time,
      revisions: map<RowId, Revision>, e: Error)
    requires if user !in db.accounts then e == UserMissing
             else e == SnapshotMismatch && !MigrationMatches(db, user, items, sha256)
    ensures Migrated(db, user, items, sha256, now, db, revisions, Err(e))
  {
  }

  lemma MigrationPlan(db: Db, user: UserId, items: seq<MigrationItem>, sha256: Bytes -> Digest, now: Time)
    requires user in db.accounts && MigrationMatches(db, user, items, sha256)
    ensures PlanOf(db, user, Op.Migrate(items, sha256), now) == Plan.Save(MigratedRows(db, user, items, now), false)
  {
  }

  lemma MigrationCommits(
      base: Db, done: Db, user: UserId, items: seq<MigrationItem>, sha256: Bytes -> Digest,
      staged: map<RowId, Row>, first: Revision, now: Time)
    requires WellFormed(base) && Representable(now) && user in base.accounts
    requires forall i :: 0 <= i < |items| ==> items[i].Valid()
    requires MigrationMatches(base, user, items, sha256) && StagesPlan(staged, MigratedRows(base, user, items, now))
    requires Staged(base, done, staged) && forall r | r in base.log :: r <= first
    requires forall id | id in staged :: staged[id].revision > first
    ensures WellFormed(done) && Migrated(base, user, items, sha256, now, done, RevisionsOf(staged), Ok(()))
  {
    MigrationPlan(base, user, items, sha256, now);
    var planned := MigratedRows(base, user, items, now);
    var op := Op.Migrate(items, sha256);
    var step := StagedCommits(base, done, staged, planned, false, user, op, now);
  }

  method MigrateSnapshot(
      tables: Tables, user: UserId, items: seq<MigrationItem>, sha256: Bytes -> Digest, now: Time)
    returns (replaced: bool, ghost revisions: map<RowId, Revision>)
    requires tables.Valid() && Representable(now) && user in tables.accounts
    requires forall i :: 0 <= i < |items| ==> items[i].Valid()
    modifies tables`rows, tables`log, tables`lastRevision
    ensures tables.Valid() && replaced == MigrationMatches(old(tables.Value()), user, items, sha256)
    ensures !replaced ==> tables.Value() == old(tables.Value())
    ensures replaced ==> Migrated(old(tables.Value()), user, items, sha256, now, tables.Value(), revisions, Ok(()))
  {
    ghost var base, first := tables.Value(), tables.lastRevision;
    revisions := map[];
    if items == [] {
      return false, revisions;
    }
    if MigrationMatches(base, user, items, sha256) {
      MatchIsUsable(base, user, items, sha256);
    }
    var byId := IndexItems(items, MigrationId, Usable);
    if byId.None? {
      return false, revisions;
    }
    var configs := ListOpen(tables, user);
    if MigrationMatches(base, user, items, sha256) {
      MatchChecks(base, user, configs, items, sha256);
    }
    if |configs| != |items| {
      return false, revisions;
    }
    var checked := CheckEach(configs, byId.value, sha256);
    if checked < |configs| {
      return false, revisions;
    }
    ChecksMatch(base, user, configs, items, byId.value, sha256);
    SnapshotIsKnown(base, user, configs, first, tables.lastRow);
    ghost var written := MigrateEach(tables, configs, byId.value, now, base);
    revisions := CommitWritten(base, tables.Value(), user, configs, items, byId.value, sha256, written, first, now);
    return true, revisions;
  }

  /** The rows of a completed loop are one step of the specification. */
  lemma CommitWritten(
      base: Db, done: Db, user: UserId, configs: seq<Row>, items: seq<MigrationItem>, byId: map<RowId, MigrationItem>,
      sha256: Bytes -> Digest, written: seq<Row>, first: Revision, now: Time)
    returns (revisions: map<RowId, Revision>)
    requires WellFormed(base) && Representable(now) && user in base.accounts
    requires forall i :: 0 <= i < |items| ==> items[i].Valid()
    requires IsSnapshot(base, user, configs) && Indexes(byId, items, MigrationId, Usable)
    requires MigrationMatches(base, user, items, sha256) && forall r | r in base.log :: r <= first
    requires |written| == |configs| && Moved(byId, configs, written, first, now) && done == WriteAll(base, written)
    ensures WellFormed(done) && Migrated(base, user, items, sha256, now, done, revisions, Ok(()))
  {
    var staged := ItemsById(written);
    MovedAreDistinct(configs, byId, written, first, now);
    WrittenIsStaged(base, written);
    WrittenRows(written, first);
    StagedMoves(configs, byId, written, first, now, staged);
    CompletedStages(base, user, configs, items, byId, sha256, staged, MigratedRows(base, user, items, now), now);
    MigrationCommits(base, done, user, items, sha256, staged, first, now);
    revisions := RevisionsOf(staged);
  }

  /** The repository's transaction. Its items come from the service, which has validated them. */
  method MigrateEncryptedConfigsToV2(
      tables: Tables, user: UserId, items: seq<MigrationItem>, sha256: Bytes -> Digest, now: Time)
    returns (r: Result<()>, ghost revisions: map<RowId, Revision>)
    requires tables.Valid() && Representable(now)
    requires forall i :: 0 <= i < |items| ==> items[i].Valid()
    modifies tables
    ensures tables.Valid()
    ensures Migrated(old(tables.Value()), user, items, sha256, now, tables.Value(), revisions, r)
    ensures Recorded(old(tables.history), tables.history, old(tables.Value()), tables.Value())
  {
    ghost var base := tables.Value();
    revisions := map[];
    if user !in tables.accounts {
      MigrationRefuses(base, user, items, sha256, now, revisions, UserMissing);
      return Err(UserMissing), revisions;
    }
    var replaced;
    replaced, revisions := MigrateSnapshot(tables, user, items, sha256, now);
    if !replaced {
      MigrationRefuses(base, user, items, sha256, now, revisions, SnapshotMismatch);
      return Err(SnapshotMismatch), revisions;
    }
    if base != tables.Value() {
      tables.history := tables.history + [(base, tables.Value())];
    }
    return Ok(()), revisions;
  }

  // ---------------------------------------------------------------- the service

  ghost predicate ValidItem(item: MigrationItem) {
    item.id != 0 && !Blank(item.expectedClock.spelling) && item.blob != [] && !Blank(item.nextClock.spelling) &&
    OTC2 <= item.blob && Compare(item.nextClock, item.expectedClock) == Ok(Newer)
  }

  ghost predicate Accepts(user: UserId, items: seq<MigrationItem>) {
    user != 0 && items != [] && DistinctIds(MigrationIds(items)) && forall i :: 0 <= i < |items| ==> ValidItem(items[i])
  }

  method Check(item: MigrationItem) returns (valid: bool)
    ensures valid <==> ValidItem(item)
  {
    if item.id == 0 || Blank(item.expectedClock.spelling) || item.blob == [] || Blank(item.nextClock.spelling) ||
       !(OTC2 <= item.blob) {
      return false;
    }
    var relation := CompareVectorClock(item.nextClock, item.expectedClock);
    return relation == Ok(Newer);
  }

  /** Everything that can be refused without the database is refused before it is locked. */
  method Validate(user: UserId, items: seq<MigrationItem>) returns (r: Result<seq<MigrationItem>>)
    ensures r == if Accepts(user, items) then Ok(items) else Err(InvalidInput)
  {
    if user == 0 || items == [] {
      return Err(InvalidInput);
    }
    var ids := MigrationIds(items);
    var replacements: seq<MigrationItem> := [];
    var seen: set<RowId> := {};
    for n := 0 to |items|
      invariant replacements == items[..n] && forall i :: 0 <= i < n ==> ValidItem(items[i])
      invariant seen == IdSet(ids[..n]) && DistinctIds(ids[..n])
    {
      var item := items[n];
      SeenOneMore(ids, n);
      var valid := Check(item);
      if !valid || item.id in seen {
        return Err(InvalidInput);
      }
      seen := seen + {item.id};
      replacements := replacements + [item];
    }
    assert items[..|items|] == items && ids[..|items|] == ids;
    return Ok(replacements);
  }

  lemma SeenOneMore(ids: seq<RowId>, n: nat)
    requires n < |ids| && DistinctIds(ids[..n])
    ensures IdSet(ids[..n + 1]) == IdSet(ids[..n]) + {ids[n]}
    ensures ids[n] in IdSet(ids[..n]) ==> !DistinctIds(ids)
    ensures ids[n] !in IdSet(ids[..n]) ==> DistinctIds(ids[..n + 1])
  {
    assert ids[..n + 1] == ids[..n] + [ids[n]];
    if ids[n] in IdSet(ids[..n]) {
      var i :| 0 <= i < n && ids[..n][i] == ids[n];
      assert ids[i] == ids[n];
    }
  }

  lemma AcceptedAreValid(user: UserId, items: seq<MigrationItem>)
    requires Accepts(user, items)
    ensures forall i :: 0 <= i < |items| ==> items[i].Valid()
  {
    forall i | 0 <= i < |items| ensures items[i].Valid() {
      assert ValidItem(items[i]) && Trim("") == "";
    }
  }

  /** The list names every row of the account that is not purged, each once, as it is now. */
  ghost predicate NamesEveryRow(db: Db, user: UserId, items: seq<MigrationItem>, sha256: Bytes -> Digest) {
    && (forall i :: 0 <= i < |items| ==>
          && items[i].id in db.rows && db.rows[items[i].id].user == user && db.rows[items[i].id].state != Purged
          && db.rows[items[i].id].clock == items[i].expectedClock
          && sha256(db.rows[items[i].id].blob) == items[i].expectedDigest)
    && (forall id | id in db.rows && db.rows[id].user == user && db.rows[id].state != Purged ::
          exists i :: 0 <= i < |items| && items[i].id == id)
  }

  lemma MatchNames(db: Db, user: UserId, items: seq<MigrationItem>, sha256: Bytes -> Digest)
    requires MigrationMatches(db, user, items, sha256)
    ensures NamesEveryRow(db, user, items, sha256)
  {
    var ids := MigrationIds(items);
    assert IdSet(ids) == OpenRows(db, user);
    forall i | 0 <= i < |items| ensures items[i].id in OpenRows(db, user) && MoveMatches(db, items[i], sha256) {
      assert ids[i] in IdSet(ids);
    }
    forall id | id in OpenRows(db, user) ensures exists i :: 0 <= i < |items| && items[i].id == id {
      var i := IndexOf(ids, id);
      assert items[i].id == id;
    }
  }

  lemma NamesMatch(db: Db, user: UserId, items: seq<MigrationItem>, sha256: Bytes -> Digest)
    requires NamesEveryRow(db, user, items, sha256) && Accepts(user, items)
    ensures MigrationMatches(db, user, items, sha256)
  {
    var ids := MigrationIds(items);
    forall i | 0 <= i < |items| ensures MoveMatches(db, items[i], sha256) {
      assert ValidItem(items[i]) && Trim("") == "";
    }
    forall id | id in OpenRows(db, user) ensures id in ids {
      var i :| 0 <= i < |items| && items[i].id == id;
      assert ids[i] == id;
    }
    assert IdSet(ids) == OpenRows(db, user);
  }

  /** An item no snapshot could make acceptable. */
  ghost predicate NeverFits(item: MigrationItem) {
    || item.id == 0 || Blank(item.expectedClock.spelling) || Blank(item.nextClock.spelling)
    || |item.blob| < 4 || item.blob[..4] != [79, 84, 67, 50]
    || !Parses(item.expectedClock) || !Parses(item.nextClock) || !StrictlyNewer(item.nextClock, item.expectedClock)
  }

  /** What the client is told, cause by cause; nothing changes unless every open row moves. */
  ghost predicate MigrateAnswer(
      before: Db, user: UserId, items: seq<MigrationItem>, sha256: Bytes -> Digest, now: Time, after: Db, r: Result<()>)
  {
    if user == 0 || items == [] || (exists i :: 0 <= i < |items| && NeverFits(items[i])) ||
       (exists i, j :: 0 <= i < j < |items| && items[i].id == items[j].id) then
      after == before && r == Err(InvalidInput)
    else if user !in before.accounts then after == before && r == Err(UserMissing)
    else if !NamesEveryRow(before, user, items, sha256) then after == before && r == Err(SnapshotStale)
    else MovedEachOnce(before, user, items, sha256, now, after) && r == Ok(())
  }

  lemma ValidIffFits(item: MigrationItem)
    ensures ValidItem(item) <==> !NeverFits(item)
  {
  }

  lemma AcceptsIff(user: UserId, items: seq<MigrationItem>)
    ensures !Accepts(user, items) <==>
      (|| user == 0 || items == [] || (exists i :: 0 <= i < |items| && NeverFits(items[i]))
       || (exists i, j :: 0 <= i < j < |items| && items[i].id == items[j].id))
  {
    var ids := MigrationIds(items);
    forall i | 0 <= i < |items| ensures ValidItem(items[i]) <==> !NeverFits(items[i]) {
      ValidIffFits(items[i]);
    }
    if !DistinctIds(ids) {
      var i, j :| 0 <= i < j < |ids| && ids[i] == ids[j];
      assert items[i].id == items[j].id;
    }
    if DistinctIds(ids) {
      forall i, j | 0 <= i < j < |items| ensures items[i].id != items[j].id {
        assert ids[i] != ids[j];
      }
    }
  }

  lemma MigratedByCause(
      before: Db, user: UserId, items: seq<MigrationItem>, sha256: Bytes -> Digest, now: Time, after: Db,
      revisions: map<RowId, Revision>, migrated: Result<()>)
    requires WellFormed(before) && Migrated(before, user, items, sha256, now, after, revisions, migrated)
    ensures user !in before.accounts ==> after == before && migrated == Err(UserMissing)
    ensures user in before.accounts ==>
      if MigrationMatches(before, user, items, sha256) then
        MovedEachOnce(before, user, items, sha256, now, after) && migrated == Ok(())
      else after == before && migrated == Err(SnapshotMismatch)
  {
    if user in before.accounts && MigrationMatches(before, user, items, sha256) {
      MigrationPlan(before, user, items, sha256, now);
      MigrationMovesEachOnce(before, user, items, sha256, revisions, now);
    }
  }

  lemma MigrateIsAnswered(
      before: Db, user: UserId, items: seq<MigrationItem>, sha256: Bytes -> Digest, now: Time, after: Db,
      revisions: map<RowId, Revision>, migrated: Result<()>)
    requires WellFormed(before) && Accepts(user, items)
    requires Migrated(before, user, items, sha256, now, after, revisions, migrated)
    ensures MigrateAnswer(before, user, items, sha256, now, after,
                          if migrated == Err(SnapshotMismatch) then Err(SnapshotStale) else migrated)
  {
    AcceptsIff(user, items);
    MigratedByCause(before, user, items, sha256, now, after, revisions, migrated);
    if MigrationMatches(before, user, items, sha256) {
      MatchNames(before, user, items, sha256);
    } else if NamesEveryRow(before, user, items, sha256) {
      NamesMatch(before, user, items, sha256);
    }
  }

  method MigrateToV2(tables: Tables, user: UserId, items: seq<MigrationItem>, sha256: Bytes -> Digest, now: Time)
    returns (r: Result<()>, ghost revisions: map<RowId, Revision>, ghost migrated: Result<()>)
    requires tables.Valid() && Representable(now)
    modifies tables
    ensures tables.Valid()
    ensures MigrateAnswer(old(tables.Value()), user, items, sha256, now, tables.Value(), r)
    ensures Accepts(user, items) ==>
      Migrated(old(tables.Value()), user, items, sha256, now, tables.Value(), revisions, migrated)
  {
    ghost var before := tables.Value();
    revisions, migrated := map[], Err(InvalidInput);
    AcceptsIff(user, items);
    var replacements := Validate(user, items);
    if replacements.Err? {
      return Err(replacements.error), revisions, migrated;
    }
    AcceptedAreValid(user, items);
    var outcome;
    outcome, revisions := MigrateEncryptedConfigsToV2(tables, user, replacements.value, sha256, now);
    MigrateIsAnswered(before, user, items, sha256, now, tables.Value(), revisions, outcome);
    return if outcome == Err(SnapshotMismatch) then Err(SnapshotStale) else outcome, revisions, outcome;
  }

  // ---------------------------------------------------------------- what a migration did

  /** One open row after the migration: OTC2 ciphertext under a strictly newer clock. */
  ghost predicate MovedBy(was: Row, now: Row, item: MigrationItem, sha256: Bytes -> Digest, time: Time) {
    && item.id == was.id && was.clock == item.expectedClock && sha256(was.blob) == item.expectedDigest
    && now == was.(blob := item.blob, clock := item.nextClock, revision := now.revision, updatedAt := time)
    && OTC2 <= now.blob && StrictlyNewer(now.clock, was.clock)
  }

  /** The list is in bijection with the open rows, each moved under a new distinct revision; nothing else changed. */
  ghost predicate MovedEachOnce(
      db: Db, user: UserId, items: seq<MigrationItem>, sha256: Bytes -> Digest, time: Time, after: Db)
  {
    && after.rows.Keys == db.rows.Keys && |items| == |OpenRows(db, user)| && DistinctIds(MigrationIds(items))
    && (forall i :: 0 <= i < |items| ==>
          && items[i].id in OpenRows(db, user)
          && MovedBy(db.rows[items[i].id], after.rows[items[i].id], items[i], sha256, time))
    && (forall id | id in db.rows && id !in OpenRows(db, user) :: after.rows[id] == db.rows[id])
    && (forall id, r: Revision | id in OpenRows(db, user) && Logged(db, user, r) :: r < after.rows[id].revision)
    && (forall i, j | i in OpenRows(db, user) && j in OpenRows(db, user) && i != j ::
          after.rows[i].revision != after.rows[j].revision)
    && after.accounts == db.accounts && after.acks == db.acks
  }

  /** What a valid item promises of its row. */
  ghost predicate Advances(item: MigrationItem) {
    OTC2 <= item.blob && StrictlyNewer(item.nextClock, item.expectedClock)
  }

  lemma ValidItemsAdvance(items: seq<MigrationItem>)
    requires forall i :: 0 <= i < |items| ==> items[i].Valid()
    ensures forall i :: 0 <= i < |items| ==> Advances(items[i])
  {
    forall i | 0 <= i < |items| ensures Advances(items[i]) {
      assert items[i].Valid();
    }
  }

  lemma MovedRow(
      db: Db, user: UserId, items: seq<MigrationItem>, sha256: Bytes -> Digest, revisions: map<RowId, Revision>,
      now: Time, rows: map<RowId, Row>, i: nat)
    requires KeysAreIds(db.rows) && MigrationMatches(db, user, items, sha256) && i < |items| && Advances(items[i])
    requires OpenRows(db, user) <= revisions.Keys && Injective(revisions)
    requires rows == Stamp(MigratedRows(db, user, items, now), revisions)
    ensures items[i].id in OpenRows(db, user) && items[i].id in rows
    ensures MovedBy(db.rows[items[i].id], rows[items[i].id], items[i], sha256, now)
  {
    var ids := MigrationIds(items);
    assert ids[i] in ids;
    assert IdSet(ids) == OpenRows(db, user);
    assert MoveMatches(db, items[i], sha256);
    assert IndexOf(ids, items[i].id) == i;
  }

  lemma MovedEach(
      db: Db, user: UserId, items: seq<MigrationItem>, sha256: Bytes -> Digest, revisions: map<RowId, Revision>,
      now: Time, rows: map<RowId, Row>, after: Db)
    requires |items| == |OpenRows(db, user)| && DistinctIds(MigrationIds(items))
    requires OpenRows(db, user) <= revisions.Keys && Injective(revisions) && rows.Keys == OpenRows(db, user)
    requires forall id | id in revisions :: FreshRevision(db, user, revisions[id])
    requires forall id | id in rows :: rows[id].revision == revisions[id]
    requires forall i :: 0 <= i < |items| ==>
      items[i].id in rows && MovedBy(db.rows[items[i].id], rows[items[i].id], items[i], sha256, now)
    requires after.rows == db.rows + rows && after.accounts == db.accounts && after.acks == db.acks
    ensures MovedEachOnce(db, user, items, sha256, now, after)
  {
    assert after.rows.Keys == db.rows.Keys;
    forall id, r: Revision | id in OpenRows(db, user) && Logged(db, user, r) ensures r < after.rows[id].revision {
      assert FreshRevision(db, user, revisions[id]);
    }
  }

  lemma MovedRows(
      db: Db, user: UserId, items: seq<MigrationItem>, sha256: Bytes -> Digest, revisions: map<RowId, Revision>,
      now: Time, rows: map<RowId, Row>)
    requires KeysAreIds(db.rows) && MigrationMatches(db, user, items, sha256)
    requires forall i :: 0 <= i < |items| ==> Advances(items[i])
    requires OpenRows(db, user) <= revisions.Keys && Injective(revisions)
    requires rows == Stamp(MigratedRows(db, user, items, now), revisions)
    ensures rows.Keys == OpenRows(db, user) && forall id | id in rows :: rows[id].revision == revisions[id]
    ensures forall i :: 0 <= i < |items| ==>
      items[i].id in rows && MovedBy(db.rows[items[i].id], rows[items[i].id], items[i], sha256, now)
  {
    forall i | 0 <= i < |items|
      ensures items[i].id in rows && MovedBy(db.rows[items[i].id], rows[items[i].id], items[i], sha256, now)
    {
      MovedRow(db, user, items, sha256, revisions, now, rows, i);
    }
  }

  /** The effect of a migration that succeeds. */
  lemma MigrationMovesEachOnce(
      db: Db, user: UserId, items: seq<MigrationItem>, sha256: Bytes -> Digest, revisions: map<RowId, Revision>,
      now: Time)
    requires WellFormed(db) && user in db.accounts && MigrationMatches(db, user, items, sha256)
    requires ValidStep(db, Locked(user, Op.Migrate(items, sha256), revisions, now))
    ensures MovedEachOnce(
      db, user, items, sha256, now, Next(db, Locked(user, Op.Migrate(items, sha256), revisions, now)))
  {
    MigrationPlan(db, user, items, sha256, now);
    var plan := Plan.Save(MigratedRows(db, user, items, now), false);
    var op := Op.Migrate(items, sha256);
    SavingStep(db, user, op, revisions, now, plan);
    var rows := Stamp(plan.rows, revisions);
    ExactCount(db, user, MigrationIds(items));
    ValidItemsAdvance(items);
    MovedRows(db, user, items, sha256, revisions, now, rows);
    MovedEach(db, user, items, sha256, revisions, now, rows, Execute(db, user, plan, revisions));
  }
}
