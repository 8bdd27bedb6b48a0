/** Physical collection of tombstones: which rows are chosen, and why collecting them is causally safe. */
module Collection {
  import opened ServerConfig
  import opened Database
  import opened Evolution
  import opened Selection
  import opened Sync

  predicate Expired(row: Row, cutoff: Time) {
    row.state == Purged && row.updatedAt <= cutoff
  }

  /** `WHERE state = 'purged' AND updated_at <= ? ORDER BY updated_at, id LIMIT ?` */
  ghost predicate IsCandidates(db: Db, cutoff: Time, limit: nat, items: seq<Row>) {
    IsSelection(db.rows, (row: Row) => Expired(row, cutoff), (row: Row) => row.updatedAt, limit, items)
  }

  /** The account has a registered device, and none of its devices is behind the tombstone. */
  ghost predicate AllAcknowledged(db: Db, row: Row) {
    && (exists key :: key in db.acks && key.0 == row.user)
    && forall key | key in db.acks && key.0 == row.user :: db.acks[key] >= row.revision
  }

  ghost function Eligible(db: Db, ids: set<RowId>): set<RowId> {
    set id | id in ids && id in db.rows && AllAcknowledged(db, db.rows[id])
  }

  /** The final statement checks the state again, and nothing else. */
  ghost function Removed(db: Db, ids: set<RowId>): set<RowId> {
    set id | id in ids && id in db.rows && db.rows[id].state == Purged
  }

  /** When the old tombstones fit the limit, the candidates are all of them. */
  lemma AllCandidates(db: Db, cutoff: Time, limit: nat, candidates: seq<Row>, aged: set<RowId>)
    requires KeysAreIds(db.rows) && IsCandidates(db, cutoff, limit, candidates) && |aged| <= limit
    requires forall id ::
      id in aged <==> id in db.rows && db.rows[id].state == Purged && db.rows[id].updatedAt <= cutoff
    ensures Ids(candidates) == aged
  {
    SelectionSize(db.rows, (row: Row) => Expired(row, cutoff), (row: Row) => row.updatedAt, limit, candidates, aged);
    Subset(Ids(candidates), aged);
  }

  /** A candidate that is acknowledged by every device of an account that has one is removed. */
  lemma CandidateIsRemoved(db: Db, ids: set<RowId>, id: RowId, device: Device)
    requires id in ids && id in db.rows && db.rows[id].state == Purged
    requires device in db.acks && device.0 == db.rows[id].user
    requires forall key | key in db.acks && key.0 == db.rows[id].user :: db.acks[key] >= db.rows[id].revision
    ensures id in Removed(db, Eligible(db, ids))
  {
  }

  /** What the three statements of one collection saw. */
  datatype Trail = Trail(first: Db, second: Db, third: Db, candidates: seq<Row>)

  /** One collection that ended in `last`: what it removed, and that its two counts are exact. */
  ghost predicate Collects(t: Trail, last: Db, cutoff: Time, limit: nat, deleted: nat, deferred: nat) {
    var eligible := Eligible(t.second, Ids(t.candidates));
    && Evolves(t.first, t.second) && Evolves(t.second, t.third) && IsCandidates(t.first, cutoff, limit, t.candidates)
    && deferred + |eligible| == |t.candidates|
    && deleted == |Removed(t.third, eligible)| <= |eligible|
    && last == t.third.(rows := t.third.rows - Removed(t.third, eligible))
  }

  /**
    Three separate queries, with writes and acknowledgements in between: a row that the last one
    removes is still the very tombstone the first two saw, old enough and acknowledged by every
    device that was registered at the second.
   */
  lemma RemovedIsAcknowledgedTombstone(
      first: Db, second: Db, third: Db, cutoff: Time, limit: nat, candidates: seq<Row>, id: RowId)
    requires WellFormed(first) && WellFormed(second) && Evolves(first, second) && Evolves(second, third)
    requires IsCandidates(first, cutoff, limit, candidates)
    requires id in Removed(third, Eligible(second, Ids(candidates)))
    ensures id in first.rows && Expired(first.rows[id], cutoff)
    ensures second.rows[id] == first.rows[id] && third.rows[id] == first.rows[id]
    ensures AllAcknowledged(second, third.rows[id])
  {
    assert RowEvolves(first.rows[id], second.rows[id]);
    assert RowEvolves(second.rows[id], third.rows[id]);
  }

  // ---------------------------------------------------------------- acknowledged after committed

  /** Some step of the run acknowledged `revision` for the device, when it was already committed. */
  ghost predicate AcknowledgedDuring(db: Db, steps: seq<Step>, key: Device, revision: Revision)
    requires ValidRun(db, steps)
    decreases |steps|
  {
    steps != [] &&
    (|| (&& steps[0].Ack? && (steps[0].user, steps[0].device) == key && steps[0].revision >= revision
         && Logged(db, key.0, revision))
     || AcknowledgedDuring(Next(db, steps[0]), steps[1..], key, revision))
  }

  /** The watermark already covered the revision, which was already committed. */
  ghost predicate Covers(db: Db, key: Device, revision: Revision) {
    key in db.acks && db.acks[key] >= revision && Logged(db, key.0, revision)
  }

  lemma StepAcknowledges(db: Db, step: Step, key: Device, revision: Revision)
    requires WellFormed(db) && ValidStep(db, step) && revision > 0
    requires Covers(Next(db, step), key, revision)
    ensures Covers(db, key, revision) ||
      (step.Ack? && (step.user, step.device) == key && step.revision >= revision && Logged(db, key.0, revision))
  {
    StepIsLawful(db, step);
    if key in db.acks && db.acks[key] >= revision {
      var r: Revision :| Logged(db, key.0, r) && r >= db.acks[key];
    }
  }

  /** A watermark at or above a committed revision was given after that revision was committed. */
  lemma {:induction false} WatermarkFollowsCommit(db: Db, steps: seq<Step>, key: Device, revision: Revision)
    requires WellFormed(db) && ValidRun(db, steps) && revision > 0
    requires Covers(After(db, steps), key, revision)
    ensures Covers(db, key, revision) || AcknowledgedDuring(db, steps, key, revision)
    decreases |steps|
  {
    if steps != [] {
      var next := Next(db, steps[0]);
      StepIsLawful(db, steps[0]);
      WatermarkFollowsCommit(next, steps[1..], key, revision);
      if Covers(next, key, revision) {
        StepAcknowledges(db, steps[0], key, revision);
      }
    }
  }

  /** The same for the earlier moment at which the watermark was checked against the maximum. */
  lemma CommittedBeforeCheck(was: Db, now: Db, user: UserId, max: Revision, acknowledged: Revision, revision: Revision)
    requires WellFormed(was) && Evolves(was, now) && IsMaxRevision(was, user, max)
    requires 0 < revision <= acknowledged <= max && Logged(now, user, revision)
    ensures Logged(was, user, revision)
  {
    var id :| id in was.rows && was.rows[id].user == user && was.rows[id].revision == max;
    assert Indexed(was, id);
  }

  lemma DeviceFollowed(start: Db, steps: seq<Step>, second: Db, row: Row, key: Device)
    requires WellFormed(start) && ValidRun(start, steps) && second == After(start, steps)
    requires row.id in second.rows && second.rows[row.id] == row && AllAcknowledged(second, row)
    requires key in second.acks && key.0 == row.user
    ensures Covers(start, key, row.revision) || AcknowledgedDuring(start, steps, key, row.revision)
  {
    RunIsLawful(start, steps);
    assert row.revision > 0 && Covers(second, key, row.revision) by {
      assert Indexed(second, row.id);
    }
    WatermarkFollowsCommit(start, steps, key, row.revision);
  }

  /**
    Causally safe collection: after any run up to the eligibility query, a tombstone that is later
    removed has a registered device, and every device registered at that query acknowledged the
    tombstone's revision after it was committed.
   */
  lemma CollectedOnlyAfterEveryDevice(
      start: Db, steps: seq<Step>, first: Db, second: Db, third: Db, cutoff: Time, limit: nat, candidates: seq<Row>,
      id: RowId)
    requires WellFormed(start) && ValidRun(start, steps) && second == After(start, steps)
    requires WellFormed(first) && Evolves(first, second) && Evolves(second, third)
    requires IsCandidates(first, cutoff, limit, candidates)
    requires id in Removed(third, Eligible(second, Ids(candidates)))
    ensures third.rows[id] == first.rows[id] && Expired(third.rows[id], cutoff)
    ensures exists key :: key in second.acks && key.0 == third.rows[id].user
    ensures forall key | key in second.acks && key.0 == third.rows[id].user ::
      Covers(start, key, third.rows[id].revision) || AcknowledgedDuring(start, steps, key, third.rows[id].revision)
  {
    RunIsLawful(start, steps);
    RemovedIsAcknowledgedTombstone(first, second, third, cutoff, limit, candidates, id);
    assert third.rows[id].id == id by {
      assert Indexed(second, id);
    }
    var row := third.rows[id];
    forall key | key in second.acks && key.0 == row.user
      ensures Covers(start, key, row.revision) || AcknowledgedDuring(start, steps, key, row.revision)
    {
      DeviceFollowed(start, steps, second, row, key);
    }
  }
}
