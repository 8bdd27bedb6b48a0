/**
  How rows leave the database, what that says about the devices, and the one thing a client notices:
  the maximum revision it is compared with can fall below its cursor.
 */
module Departures {
  import opened ServerConfig
  import opened Database
  import opened Evolution
  import opened RunSafety
  import opened Sync
  import opened Collection

  // ---------------------------------------------------------------- the two ways out

  ghost predicate IsLegacyDelete(step: Step, row: Row) {
    step.Locked? && step.op.LegacyDelete? && step.op.id == row.id && step.user == row.user && row.asset == ""
  }

  /** A tombstone is collected, or the owner deletes a row that is not bound to an asset. */
  ghost predicate Leaves(db: Db, step: Step, id: RowId)
    requires ValidStep(db, step)
  {
    && id in db.rows && id !in Next(db, step).rows
    && ((step.Collect? && id in step.ids && db.rows[id].state == Purged) || IsLegacyDelete(step, db.rows[id]))
  }

  lemma LegacyPlanDrops(db: Db, user: UserId, op: Op, now: Time)
    requires WellFormed(db) && PlanOf(db, user, op, now).Drop?
    ensures op.LegacyDelete? && op.id in db.rows && PlanOf(db, user, op, now) == Drop(op.id)
    ensures db.rows[op.id].user == user && db.rows[op.id].asset == ""
  {
  }

  /** A step that removes a row is one of the two, and changes no other row. */
  lemma StepThatRemoves(db: Db, step: Step, id: RowId)
    requires WellFormed(db) && ValidStep(db, step) && id in db.rows && id !in Next(db, step).rows
    ensures Leaves(db, step, id)
    ensures forall other | other in Next(db, step).rows ::
      other in db.rows && Next(db, step).rows[other] == db.rows[other]
    ensures Next(db, step).log == db.log
  {
    if step.Locked? {
      var plan := PlanOf(db, step.user, step.op, step.now);
      assert plan.Drop?;
      LegacyPlanDrops(db, step.user, step.op, step.now);
    }
  }

  // ---------------------------------------------------------------- over runs

  ghost function StateAt(db: Db, steps: seq<Step>, k: nat): Db
    requires ValidRun(db, steps) && k <= |steps|
    decreases k
  {
    if k == 0 then db else StateAt(Next(db, steps[0]), steps[1..], k - 1)
  }

  lemma {:induction false} PrefixRun(db: Db, steps: seq<Step>, k: nat)
    requires ValidRun(db, steps) && k <= |steps|
    ensures ValidRun(db, steps[..k]) && After(db, steps[..k]) == StateAt(db, steps, k)
    ensures k < |steps| ==> ValidStep(StateAt(db, steps, k), steps[k])
    ensures k < |steps| ==> Next(StateAt(db, steps, k), steps[k]) == StateAt(db, steps, k + 1)
    ensures k == |steps| ==> StateAt(db, steps, k) == After(db, steps)
    decreases k
  {
    if k > 0 {
      PrefixRun(Next(db, steps[0]), steps[1..], k - 1);
      assert steps[..k][1..] == steps[1..][..k - 1];
    }
  }

  /** A row that is gone left at some step. */
  lemma {:induction false} LeftAt(db: Db, steps: seq<Step>, id: RowId) returns (k: nat)
    requires WellFormed(db) && ValidRun(db, steps) && id in db.rows && id !in After(db, steps).rows
    ensures k < |steps| && ValidStep(StateAt(db, steps, k), steps[k]) && Leaves(StateAt(db, steps, k), steps[k], id)
    decreases |steps|
  {
    var next := Next(db, steps[0]);
    StepIsLawful(db, steps[0]);
    if id in next.rows {
      var rest := LeftAt(next, steps[1..], id);
      k := rest + 1;
    } else {
      StepThatRemoves(db, steps[0], id);
      k := 0;
    }
  }

  /** The tombstone was acknowledged by every device that was registered at some earlier moment of the run. */
  ghost predicate Cleared(db: Db, steps: seq<Step>, k: nat, j: nat, id: RowId)
    requires ValidRun(db, steps) && k <= |steps|
  {
    && j <= k && id in StateAt(db, steps, k).rows && id in StateAt(db, steps, j).rows
    && StateAt(db, steps, j).rows[id] == StateAt(db, steps, k).rows[id]
    && AllAcknowledged(StateAt(db, steps, j), StateAt(db, steps, k).rows[id])
  }

  /** Collections in this run remove only what an eligibility query of the run has cleared. */
  ghost predicate CollectsCleared(db: Db, steps: seq<Step>)
    requires ValidRun(db, steps)
  {
    forall k, id :: 0 <= k < |steps| && steps[k].Collect? && id in steps[k].ids && id in StateAt(db, steps, k).rows ==>
      exists j :: Cleared(db, steps, k, j, id)
  }

  lemma {:induction false} StateOfExtension(db: Db, steps: seq<Step>, step: Step, k: nat)
    requires ValidRun(db, steps) && ValidStep(After(db, steps), step) && k <= |steps|
    ensures ValidRun(db, steps + [step]) && StateAt(db, steps + [step], k) == StateAt(db, steps, k)
    ensures After(db, steps + [step]) == Next(After(db, steps), step)
    decreases k
  {
    OneStepRun(After(db, steps), step);
    RunsCompose(db, steps, [step]);
    if k > 0 {
      var next := Next(db, steps[0]);
      StateOfExtension(next, steps[1..], step, k - 1);
      assert (steps + [step])[1..] == steps[1..] + [step];
    }
  }

  /** What the collector removes after its three statements extends such a run to such a run. */
  lemma CollectorStepIsCleared(db: Db, steps: seq<Step>, j: nat, ids: set<RowId>) returns (step: Step)
    requires WellFormed(db) && ValidRun(db, steps) && CollectsCleared(db, steps) && j <= |steps|
    requires forall id | id in ids && id in StateAt(db, steps, j).rows :: StateAt(db, steps, j).rows[id].state == Purged
    ensures step == Collect(Removed(After(db, steps), Eligible(StateAt(db, steps, j), ids)))
    ensures ValidStep(After(db, steps), step) && ValidRun(db, steps + [step]) && CollectsCleared(db, steps + [step])
  {
    var last, n := After(db, steps), |steps|;
    step := Collect(Removed(last, Eligible(StateAt(db, steps, j), ids)));
    StateOfExtension(db, steps, step, n);
    PrefixRun(db, steps, n);
    forall k, id | 0 <= k < |steps + [step]| && (steps + [step])[k].Collect? && id in (steps + [step])[k].ids
        && id in StateAt(db, steps + [step], k).rows
      ensures exists i :: Cleared(db, steps + [step], k, i, id)
    {
      StateOfExtension(db, steps, step, k);
      if k < n {
        var i :| Cleared(db, steps, k, i, id);
        StateOfExtension(db, steps, step, i);
        assert Cleared(db, steps + [step], k, i, id);
      } else {
        FrozenBetween(db, steps, j, id);
        StateOfExtension(db, steps, step, j);
        assert Cleared(db, steps + [step], k, j, id);
      }
    }
  }

  lemma {:induction false} FrozenBetween(db: Db, steps: seq<Step>, j: nat, id: RowId)
    requires WellFormed(db) && ValidRun(db, steps) && j <= |steps|
    requires id in StateAt(db, steps, j).rows && StateAt(db, steps, j).rows[id].state == Purged
    ensures id in After(db, steps).rows ==> After(db, steps).rows[id] == StateAt(db, steps, j).rows[id]
    decreases j
  {
    if j == 0 {
      PurgedIsFrozen(db, steps, id);
    } else {
      StepIsLawful(db, steps[0]);
      FrozenBetween(Next(db, steps[0]), steps[1..], j - 1, id);
    }
  }

  /**
    Nothing disappears unnoticed: a row that is gone was an unbound row its owner deleted, or a
    tombstone, and then every device that was registered when it was cleared had acknowledged its
    revision, in this run after it was committed or already at its start.
   */
  lemma GoneWasAcknowledged(db: Db, steps: seq<Step>, id: RowId) returns (k: nat, j: nat)
    requires WellFormed(db) && ValidRun(db, steps) && CollectsCleared(db, steps)
    requires id in db.rows && id !in After(db, steps).rows
    ensures j <= k < |steps| && id in StateAt(db, steps, k).rows && ValidRun(db, steps[..j])
    ensures var row := StateAt(db, steps, k).rows[id];
      || IsLegacyDelete(steps[k], row)
      || (&& row.state == Purged && AllAcknowledged(StateAt(db, steps, j), row)
          && forall key | key in StateAt(db, steps, j).acks && key.0 == row.user ::
               Covers(db, key, row.revision) || AcknowledgedDuring(db, steps[..j], key, row.revision))
  {
    k := LeftAt(db, steps, id);
    j := 0;
    var row := StateAt(db, steps, k).rows[id];
    if steps[k].Collect? {
      j :| Cleared(db, steps, k, j, id);
      PrefixRun(db, steps, j);
      RunIsLawful(db, steps[..j]);
      forall key | key in StateAt(db, steps, j).acks && key.0 == row.user
        ensures Covers(db, key, row.revision) || AcknowledgedDuring(db, steps[..j], key, row.revision)
      {
        assert Indexed(StateAt(db, steps, j), id);
        DeviceFollowed(db, steps[..j], StateAt(db, steps, j), row, key);
      }
    }
  }

  // ---------------------------------------------------------------- when a caught-up client is asked to reset

  /** In one step the maximum falls if and only if the row that carried it left. */
  lemma StepLowersMaxIff(db: Db, step: Step, user: UserId, id: RowId, after: Revision)
    requires WellFormed(db) && ValidStep(db, step) && id in db.rows && db.rows[id].user == user
    requires IsMaxRevision(db, user, db.rows[id].revision) && IsMaxRevision(Next(db, step), user, after)
    ensures after < db.rows[id].revision <==> id !in Next(db, step).rows
  {
    var next := Next(db, step);
    StepIsLawful(db, step);
    if id in next.rows {
      assert RowEvolves(db.rows[id], next.rows[id]);
    } else {
      StepThatRemoves(db, step, id);
      RemovalLowersMax(db, next, user, id, after);
    }
  }

  lemma RemovalLowersMax(db: Db, rest: Db, user: UserId, id: RowId, after: Revision)
    requires WellFormed(db) && id in db.rows && db.rows[id].user == user
    requires IsMaxRevision(db, user, db.rows[id].revision)
    requires id !in rest.rows
    requires forall other | other in rest.rows :: other in db.rows && rest.rows[other] == db.rows[other]
    requires IsMaxRevision(rest, user, after)
    ensures after < db.rows[id].revision
  {
    assert Indexed(db, id);
    if after != 0 {
      var other :| other in rest.rows && rest.rows[other].user == user && rest.rows[other].revision == after;
      RevisionNamesRow(db, id, other);
    }
  }

  /** A pull asks for a reset if and only if every row with an entry at or above the cursor is gone. */
  lemma ResetIff(db: Db, user: UserId, cursor: Revision, max: Revision)
    requires WellFormed(db) && IsMaxRevision(db, user, max) && cursor > 0
    ensures cursor > max <==> forall r: Revision | Logged(db, user, r) && r >= cursor :: db.log[r].config !in db.rows
  {
    forall r: Revision | Logged(db, user, r) && db.log[r].config in db.rows ensures r <= max {
      assert Indexed(db, db.log[r].config);
    }
    if max >= cursor {
      var id :| id in db.rows && db.rows[id].user == user && db.rows[id].revision == max;
      assert Indexed(db, id) && Logged(db, user, max);
    }
  }

  /**
    The same over runs, for a client that had caught up: it is asked to reset if and only if the row
    that carried its cursor, and every row committed since, are gone. No backup need be involved.
   */
  lemma ResetAfterRunIff(db: Db, steps: seq<Step>, user: UserId, id: RowId, max: Revision)
    requires WellFormed(db) && ValidRun(db, steps) && id in db.rows && db.rows[id].user == user
    requires IsMaxRevision(db, user, db.rows[id].revision) && IsMaxRevision(After(db, steps), user, max)
    ensures var last := After(db, steps);
      db.rows[id].revision > max <==>
        && id !in last.rows
        && forall r: Revision | Logged(last, user, r) && r !in db.log :: last.log[r].config !in last.rows
  {
    var last, cursor := After(db, steps), db.rows[id].revision;
    RunIsLawful(db, steps);
    assert Indexed(db, id) && Logged(db, user, cursor);
    ResetIff(last, user, cursor, max);
    forall r: Revision | Logged(last, user, r) && r >= cursor && r in db.log && last.log[r].config in last.rows
      ensures last.log[r].config == id
    {
      OldEntryIsCarrier(db, last, user, id, r);
    }
    forall r: Revision | Logged(last, user, r) && r !in db.log ensures r > cursor {
    }
    assert Logged(last, user, cursor) && last.log[cursor].config == id;
  }

  lemma OldEntryIsCarrier(db: Db, last: Db, user: UserId, id: RowId, r: Revision)
    requires WellFormed(db) && Evolves(db, last) && id in db.rows && db.rows[id].user == user
    requires IsMaxRevision(db, user, db.rows[id].revision)
    requires Logged(db, user, r) && r >= db.rows[id].revision && db.log[r].config in last.rows
    ensures db.log[r].config == id
  {
    var other := db.log[r].config;
    assert other in db.rows;
    assert Indexed(db, other);
    RevisionNamesRow(db, id, other);
  }
}
