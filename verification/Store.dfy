/**
  The repository: the tables, the two sequences, and the queries and writes the services use.

  A sequence never goes back, not even when a transaction does. `Interfere` stands for everything
  other requests may commit between two accesses of one request; callers know only its contract.
 */
module Store {
  import opened Wrappers
  import opened ServerConfig
  import opened Database
  import opened Evolution
  import opened Selection
  import opened Sync
  import opened Collection
  import Transitions

  /** The sequences are past everything the log mentions. */
  ghost predicate Ahead(log: map<Revision, Change>, lastRevision: Revision, lastRow: RowId) {
    forall r | r in log :: r <= lastRevision && log[r].config <= lastRow
  }

  lemma AppendKeepsAhead(log: map<Revision, Change>, revision: Revision, change: Change, lastRow: RowId)
    requires Ahead(log, revision, lastRow) && change.config <= lastRow
    ensures Ahead(log[revision := change], revision, lastRow)
  {
  }

  /** One locked transaction ran on `before`: its answer, and what it left behind. */
  ghost predicate Executed(before: Db, user: UserId, op: Op, now: Time, after: Db, r: Result<Row>) {
    match PlanOf(before, user, op, now)
    case Refused(e) => r == Err(e) && after == before
    case Unchanged(row) => r == Ok(row) && after == before
    case Save(rows, _) =>
      && r.Ok? && r.value.id in rows && r.value == rows[r.value.id].(revision := r.value.revision)
      && ValidStep(before, Locked(user, op, map[r.value.id := r.value.revision], now))
      && after == Next(before, Locked(user, op, map[r.value.id := r.value.revision], now))
    case Drop(id) => false
  }

  /** The history gained exactly the transition from `before` to `after`, if it is one. */
  ghost predicate Recorded(was: seq<(Db, Db)>, now: seq<(Db, Db)>, before: Db, after: Db) {
    now == if before == after then was else was + [(before, after)]
  }

  /** The device's watermark is the larger of the two, and nothing else changed. */
  ghost predicate Acknowledged(before: Db, device: Device, revision: Revision, after: Db) {
    && device in after.acks && after == before.(acks := before.acks[device := after.acks[device]])
    && after.acks[device] ==
       if device in before.acks && before.acks[device] > revision then before.acks[device] else revision
  }

  /** Physical deletion by row id: of an unbound row of the account, and of nothing else. */
  ghost predicate LegacyDeleteAnswer(
      before: Db, user: UserId, id: RowId, protected: Error, after: Db, r: Result<()>)
  {
    if user !in before.accounts then after == before && r == Err(UserMissing)
    else if id !in before.rows || before.rows[id].user != user then after == before && r == Err(NotFound)
    else if before.rows[id].asset != "" then after == before && r == Err(protected)
    else r == Ok(()) && after == before.(rows := before.rows - {id})
  }

  function PurgeTime(row: Row): (time: Time)
    ensures row.purgeAfter.Some? ==> time == row.purgeAfter.value
  {
    if row.purgeAfter.Some? then row.purgeAfter.value else 0
  }

  function BatchLimit(limit: int): (n: nat)
    ensures 1 <= limit <= 5000 ==> n == limit
    ensures limit < 1 || limit > 5000 ==> n == 500
  {
    if limit <= 0 || limit > 5000 then 500 else limit
  }

  function OrNotFound(r: Result<Option<Row>>): Result<Row> {
    match r
    case Err(e) => Err(e)
    case Ok(None) => Err(NotFound)
    case Ok(Some(row)) => Ok(row)
  }

  class Tables {
    var rows: map<RowId, Row>
    var log: map<Revision, Change>
    var acks: map<Device, Revision>
    var accounts: map<UserId, Account>
    var lastRevision: Revision
    var lastRow: RowId

    /** The transactions committed through this object, as opposed to interference. */
    ghost var history: seq<(Db, Db)>

    ghost function Value(): Db
      reads this
    {
      Db(rows, log, acks, accounts)
    }

    ghost predicate SequencesAhead()
      reads this
    {
      Ahead(log, lastRevision, lastRow)
    }

    ghost predicate Valid()
      reads this
    {
      WellFormed(Value()) && SequencesAhead()
    }

    constructor (accounts: map<UserId, Account>)
      ensures Valid() && Value() == Db(map[], map[], map[], accounts)
    {
      this.accounts := accounts;
      rows, log, acks := map[], map[], map[];
      lastRevision, lastRow := 0, 0;
      history := [];
    }

    /** Any number of steps of other requests; none when the run is declared quiet. */
    method Interfere(ghost quiet: bool)
      requires Valid()
      modifies this
      ensures Valid() && Evolves(old(Value()), Value())
      ensures quiet ==> Value() == old(Value())
      ensures history == old(history) && lastRevision >= old(lastRevision) && lastRow >= old(lastRow)
    {
      EvolvesReflexive(Value());
    }

    // -------------------------------------------------------------- queries

    method FindByIdAndUserId(id: RowId, user: UserId) returns (found: Option<Row>)
      ensures found == if id in rows && rows[id].user == user then Some(rows[id]) else None
    {
      found := if id in rows && rows[id].user == user then Some(rows[id]) else None;
    }

    method FindByAssetIdAndUserId(asset: string, user: UserId) returns (found: Option<Row>)
      requires Valid() && asset != ""
      ensures found == FindByAsset(Value(), user, asset)
    {
      AssetLookup(Value(), user, asset);
      if id :| id in rows && rows[id].user == user && rows[id].asset == asset {
        assert Holds(Value(), id, user, asset);
        return Some(rows[id]);
      }
      return None;
    }

    method MaxRevisionByUserId(user: UserId) returns (max: Revision)
      ensures IsMaxRevision(Value(), user, max)
    {
      max := 0;
      var rest := rows.Keys;
      while rest != {}
        invariant rest <= rows.Keys
        invariant forall id | id in rows && id !in rest && rows[id].user == user :: rows[id].revision <= max
        invariant max == 0 || exists id :: id in rows && rows[id].user == user && rows[id].revision == max
        decreases rest
      {
        var id :| id in rest;
        if rows[id].user == user && rows[id].revision > max {
          max := rows[id].revision;
        }
        rest := rest - {id};
      }
    }

    method ListChangedByUserId(user: UserId, after: Revision, limit: nat) returns (items: seq<Row>, hasMore: bool)
      requires Valid()
      ensures IsListing(Value(), user, after, limit, items)
      ensures hasMore <==> exists id :: id in rows && ChangedAfter(rows[id], user, after) && !Contains(items, id)
    {
      var listed := Select(rows, (row: Row) => ChangedAfter(row, user, after), (row: Row) => row.revision, limit + 1);
      hasMore := |listed| > limit;
      items := if hasMore then listed[..limit] else listed;
      if hasMore {
        assert !Contains(items, listed[limit].id);
        assert forall i {:trigger listed[i]} :: 0 <= i < limit ==> listed[i] == items[i];
        forall id | id in rows && ChangedAfter(rows[id], user, after) && !Contains(items, id)
          ensures forall i :: 0 <= i < |items| ==> Before((row: Row) => row.revision, items[i], rows[id])
        {
          if Contains(listed, id) {
            var i :| 0 <= i < |listed| && listed[i].id == id;
            assert i == limit;
          }
        }
      }
    }

    /** Rows whose recovery window has passed, the longest overdue first. */
    method ListExpiredDeleted(now: Time, limit: int) returns (expired: seq<Row>)
      requires Valid()
      ensures IsSelection(rows, (row: Row) => Due(row, now), (row: Row) => PurgeTime(row), BatchLimit(limit), expired)
    {
      expired := Select(rows, (row: Row) => Due(row, now), (row: Row) => PurgeTime(row), BatchLimit(limit));
    }

    // -------------------------------------------------------------- writes that take no account lock

    /** Insert the device's watermark, or raise it; it never goes back. */
    method AcknowledgeDevice(user: UserId, device: string, revision: Revision)
      requires Valid() && ValidStep(Value(), Ack(user, device, revision))
      modifies this`acks
      ensures Valid() && Value() == Next(old(Value()), Ack(user, device, revision))
      ensures Acknowledged(old(Value()), (user, device), revision, Value())
    {
      StepIsLawful(Value(), Ack(user, device, revision));
      var key := (user, device);
      if key !in acks {
        acks := acks[key := revision];
      } else if acks[key] < revision {
        acks := acks[key := revision];
      }
      assert Value().acks == Next(old(Value()), Ack(user, device, revision)).acks;
    }

    /** Does the account have a device, and has every one of its devices reached the row's revision? */
    method IsAcknowledged(row: Row) returns (acknowledged: bool)
      ensures acknowledged <==> AllAcknowledged(Value(), row)
    {
      var registered, behind := false, false;
      var rest := acks.Keys;
      while rest != {}
        invariant rest <= acks.Keys
        invariant registered <==> exists key :: key in acks && key !in rest && key.0 == row.user
        invariant behind <==> exists key :: key in acks && key !in rest && key.0 == row.user && acks[key] < row.revision
        decreases rest
      {
        var key :| key in rest;
        if key.0 == row.user {
          registered := true;
          if acks[key] < row.revision {
            behind := true;
          }
        }
        rest := rest - {key};
      }
      return registered && !behind;
    }

    method SelectEligible(candidates: seq<Row>) returns (eligible: set<RowId>)
      ensures eligible == Eligible(Value(), Ids(candidates)) && eligible <= Ids(candidates)
    {
      eligible := {};
      for n := 0 to |candidates|
        invariant eligible == Eligible(Value(), Ids(candidates[..n]))
      {
        assert Ids(candidates[..n + 1]) == Ids(candidates[..n]) + {candidates[n].id};
        if candidates[n].id in rows {
          var acknowledged := IsAcknowledged(rows[candidates[n].id]);
          if acknowledged {
            eligible := eligible + {candidates[n].id};
          }
        }
      }
      assert candidates[..|candidates|] == candidates;
    }

    /**
      Collect old tombstones with three statements, each on its own snapshot. What is removed, and
      that the counts are exact, is stated over the three databases the statements saw.
     */
    method DeleteAcknowledgedPurgedBefore(cutoff: Time, limit: int, ghost quiet: bool)
      returns (deleted: nat, deferred: nat, ghost trail: Trail)
      requires Valid()
      modifies this
      ensures history == old(history)
      ensures Valid() && trail.first == old(Value()) && WellFormed(trail.second) && Evolves(trail.third, Value())
      ensures quiet ==> trail.second == trail.third == trail.first
      ensures Collects(trail, Value(), cutoff, BatchLimit(limit), deleted, deferred)
    {
      ghost var first := Value();
      EvolvesReflexive(first);
      NoneRemoved(first);
      var found := Select(rows, (row: Row) => Expired(row, cutoff), (row: Row) => row.updatedAt, BatchLimit(limit));
      if |found| == 0 {
        assert Eligible(first, Ids(found)) == {};
        return 0, 0, Trail(first, first, first, found);
      }
      Interfere(quiet);
      ghost var second, third := Value(), Value();
      deleted, deferred, third := CollectEligible(found, quiet);
      trail := Trail(first, second, third, found);
    }

    method CollectEligible(
        candidates: seq<Row>, ghost quiet: bool)
      returns (deleted: nat, deferred: nat, ghost third: Db)
      requires Valid() && forall i, j :: 0 <= i < j < |candidates| ==> candidates[i].id != candidates[j].id
      modifies this
      ensures history == old(history)
      ensures Valid() && Evolves(old(Value()), third) && Evolves(third, Value()) && (quiet ==> third == old(Value()))
      ensures deferred + |Eligible(old(Value()), Ids(candidates))| == |candidates|
      ensures deleted == |Removed(third, Eligible(old(Value()), Ids(candidates)))|
      ensures deleted <= |Eligible(old(Value()), Ids(candidates))|
      ensures Value() == third.(rows := third.rows - Removed(third, Eligible(old(Value()), Ids(candidates))))
    {
      third := Value();
      EvolvesReflexive(third);
      NoneRemoved(third);
      var eligible := SelectEligible(candidates);
      IdsCount(candidates);
      Subset(eligible, Ids(candidates));
      deferred := |candidates| - |eligible|;
      if eligible == {} {
        return 0, deferred, third;
      }
      Interfere(quiet);
      third := Value();
      deleted := RemovePurged(eligible);
    }

    method RemovePurged(eligible: set<RowId>) returns (deleted: nat)
      requires Valid()
      modifies this`rows
      ensures history == old(history)
      ensures Valid() && Evolves(old(Value()), Value())
      ensures deleted == |Removed(old(Value()), eligible)| <= |eligible|
      ensures Value() == old(Value()).(rows := old(rows) - Removed(old(Value()), eligible))
    {
      var removed := set id | id in eligible && id in rows && rows[id].state == Purged;
      assert removed == Removed(Value(), eligible);
      Subset(removed, eligible);
      RemovalIsLawful(Value(), removed);
      rows := rows - removed;
      deleted := |removed|;
    }

    // -------------------------------------------------------------- writes inside a transaction

    method DeleteByIdAndUserId(id: RowId, user: UserId) returns (r: Result<()>)
      requires Valid()
      modifies this`rows
      ensures Valid()
      ensures forall now :: match PlanOf(old(Value()), user, LegacyDelete(id), now)
        case Drop(_) => r == Ok(()) && Value() == old(Value()).(rows := old(rows) - {id})
        case Refused(e) => r == Err(e) && Value() == old(Value())
        case _ => false
      ensures LegacyDeleteAnswer(old(Value()), user, id, LegacyDeleteProtected, Value(), r)
    {
      if user !in accounts {
        return Err(UserMissing);
      }
      if id !in rows || rows[id].user != user {
        return Err(NotFound);
      }
      if rows[id].asset != "" {
        return Err(LegacyDeleteProtected);
      }
      RemovalIsLawful(Value(), {id});
      rows := rows - {id};
      return Ok(());
    }

    /** `tx.Save`: every column is written and the update time advances. */
    method Save(row: Row, now: Time) returns (saved: Row)
      modifies this`rows
      ensures saved == row.(updatedAt := now) && rows == old(rows)[row.id := saved]
    {
      saved := row.(updatedAt := now);
      rows := rows[row.id := saved];
    }

    /** The change takes the next revision; only the revision column of its row is updated. */
    method AppendConfigChange(row: Row) returns (indexed: Row)
      requires row.id in rows && rows[row.id] == row
      modifies this`rows, this`log, this`lastRevision
      ensures indexed == row.(revision := old(lastRevision) + 1) && lastRevision == old(lastRevision) + 1
      ensures rows == old(rows)[row.id := indexed] && log == old(log)[lastRevision := ChangeOf(row)]
    {
      lastRevision := lastRevision + 1;
      log := log[lastRevision := ChangeOf(row)];
      indexed := row.(revision := lastRevision);
      rows := rows[row.id := indexed];
    }

    /** The two writes that end a transition which changed its locked row. */
    method SaveAndAppend(row: Row, now: Time) returns (saved: Row)
      requires Ahead(log, lastRevision, lastRow) && row.id <= lastRow
      modifies this`rows, this`log, this`lastRevision
      ensures saved == row.(updatedAt := now, revision := old(lastRevision) + 1)
      ensures lastRevision == old(lastRevision) + 1
      ensures rows == old(rows)[saved.id := saved] && log == old(log)[saved.revision := ChangeOf(saved)]
      ensures Ahead(log, lastRevision, lastRow)
    {
      var stored := Save(row, now);
      saved := AppendConfigChange(stored);
      UpdateTwice(old(rows), row.id, stored, saved);
      AppendKeepsAhead(old(log), lastRevision, ChangeOf(stored), lastRow);
    }

    /** The same, when the outcome `after` is already known to be well-formed. */
    method Commit(row: Row, now: Time, ghost target: Row, ghost after: Db) returns (saved: Row)
      requires Valid() && row.id <= lastRow && target.revision == lastRevision + 1
      requires target == row.(updatedAt := now, revision := target.revision)
      requires after == Saved(Value(), target) && WellFormed(after)
      modifies this
      ensures Valid() && Value() == after && saved == target
      ensures Recorded(old(history), history, old(Value()), after)
    {
      history := history + [(Value(), after)];
      assert target.revision in after.log && target.revision !in log;
      saved := SaveAndAppend(row, now);
    }

    /** Insert a first upload. The identifier is drawn before the unique index is checked, and stays drawn. */
    method Create(user: UserId, u: UploadInput, now: Time) returns (r: Result<Row>, ghost id: RowId)
      requires Valid() && u.Valid() && Representable(now)
      modifies this
      ensures Valid() && FreshId(old(Value()), id) && Executed(old(Value()), user, Op.Create(id, u), now, Value(), r)
      ensures Recorded(old(history), history, old(Value()), Value())
    {
      ghost var before, revision := Value(), lastRevision + 1;
      var next := lastRow + 1;
      id := next;
      UnknownId(before, next, lastRevision, lastRow);
      CreateExecutes(before, user, next, u, now, revision);
      if user !in accounts {
        return Err(UserMissing), next;
      }
      lastRow := next;
      assert Value() == before;
      if u.asset != "" {
        var holder := FindByAssetIdAndUserId(u.asset, user);
        if holder.Some? {
          return Err(DuplicateAsset), next;
        }
      }
      var row := NewRow(user, next, u, now);
      ghost var target := row.(revision := revision);
      var saved := Commit(row, now, target, Saved(before, target));
      return Ok(saved), next;
    }

    /**
      Lock the account and the row, run the transition, and save and log the row if it changed.
      `None` means that the asset does not exist.
     */
    method MutateByAssetId(user: UserId, asset: string, request: Request, now: Time)
      returns (r: Result<Option<Row>>, changed: bool, ghost revision: Revision)
      requires Valid() && asset != "" && request.Valid() && Representable(now)
      modifies this
      ensures Valid() && Executed(old(Value()), user, Mutate(asset, request), now, Value(), OrNotFound(r))
      ensures changed <==> MutationWrites(old(Value()), user, asset, request, now)
      ensures OrNotFound(r) == MutationAnswer(old(Value()), user, asset, request, now, revision)
      ensures Value() == MutationAfter(old(Value()), user, asset, request, now, revision)
      ensures Evolves(old(Value()), Value())
      ensures Recorded(old(history), history, old(Value()), Value())
    {
      revision := lastRevision + 1;
      MutationExecutes(Value(), user, asset, request, now, revision);
      ghost var after := MutationAfter(Value(), user, asset, request, now, revision);
      ghost var answer := MutationAnswer(Value(), user, asset, request, now, revision);
      if user !in accounts {
        return Err(UserMissing), false, revision;
      }
      var found := FindByAssetIdAndUserId(asset, user);
      if found.None? {
        return Ok(None), false, revision;
      }
      var m := Transitions.Mutate(found.value, request, now);
      match m
      case Refuse(error) =>
        return Err(error), false, revision;
      case Keep =>
        return Ok(found), false, revision;
      case Write(row) =>
        assert answer == Ok(row.(updatedAt := now, revision := revision));
        KnownId(Value(), row.id, lastRevision, lastRow);
        var saved := Commit(row, now, answer.value, after);
        return Ok(Some(saved)), true, revision;
    }
  }

  lemma NoneRemoved(db: Db)
    ensures Removed(db, {}) == {} && db.(rows := db.rows - {}) == db
  {
    assert db.rows - {} == db.rows;
  }

  lemma UnknownId(db: Db, id: RowId, lastRevision: Revision, lastRow: RowId)
    requires WellFormed(db) && Ahead(db.log, lastRevision, lastRow) && id > lastRow
    ensures FreshId(db, id)
  {
    if id in db.rows {
      KnownId(db, id, lastRevision, lastRow);
    }
  }

  /** The outcome of `Create`: refused, or one new row under the next revision. */
  lemma CreateExecutes(db: Db, user: UserId, id: RowId, u: UploadInput, now: Time, revision: Revision)
    requires WellFormed(db) && FreshId(db, id) && u.Valid() && Representable(now)
    requires revision > 0 && forall r | r in db.log :: r < revision
    ensures user !in db.accounts ==> Executed(db, user, Op.Create(id, u), now, db, Err(UserMissing))
    ensures user in db.accounts && u.asset != "" && FindByAsset(db, user, u.asset).Some? ==>
      Executed(db, user, Op.Create(id, u), now, db, Err(DuplicateAsset))
    ensures user in db.accounts && (u.asset == "" || FindByAsset(db, user, u.asset).None?) ==>
      var target := NewRow(user, id, u, now).(revision := revision);
      WellFormed(Saved(db, target)) && Executed(db, user, Op.Create(id, u), now, Saved(db, target), Ok(target))
  {
    if user in db.accounts && (u.asset == "" || FindByAsset(db, user, u.asset).None?) {
      var step := OneRowCommit(db, user, Op.Create(id, u), now, NewRow(user, id, u, now), revision);
    }
  }

  lemma KnownId(db: Db, id: RowId, lastRevision: Revision, lastRow: RowId)
    requires WellFormed(db) && Ahead(db.log, lastRevision, lastRow) && id in db.rows
    ensures id <= lastRow
  {
    assert Indexed(db, id);
  }

  lemma LogOfOne(row: Row)
    requires DistinctRevisions(map[row.id := row])
    ensures LogOf(map[row.id := row]) == map[row.revision := ChangeOf(row)]
  {
    var rows := map[row.id := row];
    assert row.id in rows && rows[row.id].revision == row.revision;
    assert LogOf(rows).Keys == {row.revision};
  }

  lemma UpdateTwice<K, V>(m: map<K, V>, k: K, u: V, v: V)
    ensures m[k := u][k := v] == m[k := v]
  {
  }

  lemma AddOne<K, V>(m: map<K, V>, k: K, v: V)
    ensures m + map[k := v] == m[k := v]
  {
  }

  /** One row saved, and its change appended under the row's revision. */
  ghost function Saved(db: Db, row: Row): Db {
    db.(rows := db.rows[row.id := row], log := db.log[row.revision := ChangeOf(row)])
  }

  lemma SaveOne(db: Db, row: Row)
    requires DistinctRevisions(map[row.id := row])
    ensures SaveAll(db, map[row.id := row]) == Saved(db, row)
  {
    LogOfOne(row);
    AddOne(db.rows, row.id, row);
    AddOne(db.log, row.revision, ChangeOf(row));
  }

  lemma OneRowExecutes(db: Db, user: UserId, row: Row, saved: Row)
    requires saved == row.(revision := saved.revision)
    ensures Execute(db, user, Plan.Save(map[row.id := row], false), map[row.id := saved.revision]) == Saved(db, saved)
  {
    assert Stamp(map[row.id := row], map[row.id := saved.revision]) == map[saved.id := saved];
    SaveOne(db, saved);
  }

  /** A transition that plans to save one row commits as one valid step, under any later revision. */
  lemma OneRowCommit(db: Db, user: UserId, op: Op, now: Time, row: Row, revision: Revision) returns (step: Step)
    requires WellFormed(db) && ValidOp(db, op) && Representable(now)
    requires PlanOf(db, user, op, now) == Plan.Save(map[row.id := row], false)
    requires revision > 0 && forall r | r in db.log :: r < revision
    ensures step == Locked(user, op, map[row.id := revision], now)
    ensures ValidStep(db, step) && Next(db, step) == Saved(db, row.(revision := revision))
    ensures WellFormed(Saved(db, row.(revision := revision))) && Evolves(db, Saved(db, row.(revision := revision)))
  {
    var plan := Plan.Save(map[row.id := row], false);
    var revisions := map[row.id := revision];
    step := Locked(user, op, revisions, now);
    assert Stampable(plan, revisions);
    assert forall id | id in revisions :: FreshRevision(db, user, revisions[id]);
    StepExecutes(db, user, op, revisions, now, plan);
    OneRowExecutes(db, user, row, row.(revision := revision));
    StepIsLawful(db, step);
  }

  /** An executed one-row plan left exactly that row, under the revision it answers with. */
  lemma OneRowExecuted(db: Db, user: UserId, op: Op, now: Time, after: Db, r: Result<Row>, row: Row)
    requires PlanOf(db, user, op, now) == Plan.Save(map[row.id := row], false) && Executed(db, user, op, now, after, r)
    ensures r.Ok? && r.value == row.(revision := r.value.revision) && after == Saved(db, r.value)
    ensures FreshRevision(db, user, r.value.revision)
  {
    var plan := Plan.Save(map[row.id := row], false);
    var revisions := ExecutedSaves(db, user, op, now, after, r, plan);
    OneRowPlan(db, user, row, r.value, revisions, after);
  }

  lemma OneRowPlan(db: Db, user: UserId, row: Row, saved: Row, revisions: map<RowId, Revision>, after: Db)
    requires revisions == map[saved.id := saved.revision] && saved.id in map[row.id := row]
    requires saved == map[row.id := row][saved.id].(revision := saved.revision)
    requires Injective(revisions) && after == Execute(db, user, Plan.Save(map[row.id := row], false), revisions)
    requires forall id | id in revisions :: FreshRevision(db, user, revisions[id])
    ensures saved == row.(revision := saved.revision) && after == Saved(db, saved)
    ensures FreshRevision(db, user, saved.revision)
  {
    assert saved.id == row.id && saved.id in revisions;
    OneRowExecutes(db, user, row, saved);
  }

  lemma ExecutedStep(db: Db, user: UserId, op: Op, now: Time, after: Db, r: Result<Row>, plan: Plan)
    requires plan.Save? && PlanOf(db, user, op, now) == plan && Executed(db, user, op, now, after, r)
    ensures r.Ok? && r.value.id in plan.rows && r.value == plan.rows[r.value.id].(revision := r.value.revision)
    ensures ValidStep(db, Locked(user, op, map[r.value.id := r.value.revision], now))
    ensures after == Next(db, Locked(user, op, map[r.value.id := r.value.revision], now))
  {
  }

  lemma ExecutedSaves(db: Db, user: UserId, op: Op, now: Time, after: Db, r: Result<Row>, plan: Plan)
    returns (revisions: map<RowId, Revision>)
    requires plan.Save? && PlanOf(db, user, op, now) == plan && Executed(db, user, op, now, after, r)
    ensures r.Ok? && revisions == map[r.value.id := r.value.revision]
    ensures r.value.id in plan.rows && r.value == plan.rows[r.value.id].(revision := r.value.revision)
    ensures Stampable(plan, revisions) && (plan.newToken ==> user in db.accounts)
    ensures forall id | id in revisions :: FreshRevision(db, user, revisions[id])
    ensures after == Execute(db, user, plan, revisions)
  {
    ExecutedStep(db, user, op, now, after, r, plan);
    revisions := map[r.value.id := r.value.revision];
    SavingStep(db, user, op, revisions, now, plan);
  }

  /** What was executed depends on the plan only. */
  lemma SamePlanExecutes(db: Db, user: UserId, op: Op, other: Op, now: Time, after: Db, r: Result<Row>)
    requires PlanOf(db, user, other, now) == PlanOf(db, user, op, now) && ValidOp(db, other) && Representable(now)
    requires Executed(db, user, op, now, after, r)
    ensures Executed(db, user, other, now, after, r)
  {
    var plan := PlanOf(db, user, op, now);
    if plan.Save? {
      var revisions := ExecutedSaves(db, user, op, now, after, r, plan);
      StepExecutes(db, user, other, revisions, now, plan);
    }
  }

  /** The outcome of `MutateByAssetId`, case by case. */
  ghost function MutationAnswer(
      db: Db, user: UserId, asset: string, request: Request, now: Time, revision: Revision): Result<Row> {
    if user !in db.accounts then Err(UserMissing) else
    match FindByAsset(db, user, asset)
    case None => Err(NotFound)
    case Some(row) =>
      match Decide(row, request, now)
      case Refuse(error) => Err(error)
      case Keep => Ok(row)
      case Write(next) => Ok(next.(updatedAt := now, revision := revision))
  }

  ghost predicate MutationWrites(db: Db, user: UserId, asset: string, request: Request, now: Time) {
    user in db.accounts && FindByAsset(db, user, asset).Some? &&
    Decide(FindByAsset(db, user, asset).value, request, now).Write?
  }

  ghost function MutationAfter(
      db: Db, user: UserId, asset: string, request: Request, now: Time, revision: Revision): Db {
    if MutationWrites(db, user, asset, request, now)
    then Saved(db, MutationAnswer(db, user, asset, request, now, revision).value) else db
  }

  lemma MutationStays(db: Db, user: UserId, asset: string, request: Request, now: Time, revision: Revision)
    requires WellFormed(db) && asset != "" && !MutationWrites(db, user, asset, request, now)
    ensures Executed(db, user, Mutate(asset, request), now, db, MutationAnswer(db, user, asset, request, now, revision))
  {
    AssetLookup(db, user, asset);
  }

  lemma MutationCommits(
      db: Db, user: UserId, asset: string, request: Request, now: Time, revision: Revision, row: Row, saved: Row)
    requires WellFormed(db) && asset != "" && request.Valid() && Representable(now)
    requires MutationWrites(db, user, asset, request, now)
    requires revision > 0 && forall r | r in db.log :: r < revision
    requires row == Decide(FindByAsset(db, user, asset).value, request, now).row.(updatedAt := now)
    requires saved == row.(revision := revision)
    ensures WellFormed(Saved(db, saved)) && Evolves(db, Saved(db, saved)) && saved.id in db.rows
    ensures Executed(db, user, Mutate(asset, request), now, Saved(db, saved), Ok(saved))
  {
    var was := FindByAsset(db, user, asset).value;
    AssetLookup(db, user, asset);
    DecisionIsRowStep(was, request, now);
    var step := OneRowCommit(db, user, Mutate(asset, request), now, row, revision);
  }

  ghost predicate MutationIsExecuted(
      db: Db, user: UserId, asset: string, request: Request, now: Time, after: Db, answer: Result<Row>)
  {
    && WellFormed(after) && Evolves(db, after) && Executed(db, user, Mutate(asset, request), now, after, answer)
    && (MutationWrites(db, user, asset, request, now) ==> answer.Ok? && answer.value.id in db.rows)
  }

  lemma MutationExecutes(db: Db, user: UserId, asset: string, request: Request, now: Time, revision: Revision)
    requires WellFormed(db) && asset != "" && request.Valid() && Representable(now)
    requires revision > 0 && forall r | r in db.log :: r < revision
    ensures MutationIsExecuted(
      db, user, asset, request, now, MutationAfter(db, user, asset, request, now, revision),
      MutationAnswer(db, user, asset, request, now, revision))
  {
    var after := MutationAfter(db, user, asset, request, now, revision);
    var answer := MutationAnswer(db, user, asset, request, now, revision);
    if MutationWrites(db, user, asset, request, now) {
      var row := Decide(FindByAsset(db, user, asset).value, request, now).row.(updatedAt := now);
      var saved := row.(revision := revision);
      assert answer == Ok(saved) && after == Saved(db, saved);
      MutationCommits(db, user, asset, request, now, revision, row, saved);
    } else {
      EvolvesReflexive(db);
      MutationStays(db, user, asset, request, now, revision);
    }
  }
}
