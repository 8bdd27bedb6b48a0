/** What single requests and whole runs do to one asset: delete wins, replays are inert, no resurrection. */
module Lifecycle {
  import opened Wrappers
  import opened Text
  import opened VectorClock
  import opened ServerConfig
  import opened Database
  import opened Evolution

  // ---------------------------------------------------------------- delete wins

  ghost predicate IsJoin(a: RawClock, b: RawClock, join: RawClock) {
    && Leq(a, join) && Leq(b, join)
    && forall bound :: Leq(a, bound) && Leq(b, bound) ==> Leq(join, bound)
  }

  /** A delete that is not a retry is accepted exactly when the row does not cover its clock. */
  lemma DeleteAccepts(row: Row, d: AssetMutation, days: int, now: Time)
    requires Parses(row.clock) && Parses(d.clock) && row.state != Purged && !(row.lastOp == d.op && row.IsDeleted())
    ensures DecideDelete(row, d, days, now).Write? <==> !Leq(d.clock, row.clock)
    ensures DecideDelete(row, d, days, now).Write? ==>
      var result := DecideDelete(row, d, days, now).row;
      result.state == Deleted && result.blob == row.blob && IsJoin(d.clock, row.clock, result.clock)
  {
    if Compare(d.clock, row.clock) == Ok(Conflict) {
      ConflictMerges(d.clock, row.clock);
      MergeIsJoin(d.clock, row.clock, Merge(d.clock, row.clock).value);
    }
  }

  /**
    From an active row, an upload and a delete that the upload does not cover end in `Deleted`
    whichever comes first; upload-then-delete ends exactly at the join of the two clocks.
   */
  lemma DeleteWinsInBothOrders(row: Row, u: UploadInput, d: AssetMutation, days: int, now: Time, later: Time)
    requires Shape(row) && row.state == Active && u.Valid() && d.Valid()
    requires StrictlyNewer(u.clock, row.clock) && !Leq(d.clock, u.clock)
    ensures DecideUpload(row, u).Write?
    ensures var uploaded := DecideUpload(row, u).row;
      var second := DecideDelete(uploaded, d, days, later);
      && second.Write? && second.row.state == Deleted && second.row.blob == u.blob
      && IsJoin(d.clock, u.clock, second.row.clock)
    ensures DecideDelete(row, d, days, now).Write?
    ensures var deleted := DecideDelete(row, d, days, now).row;
      && deleted.state == Deleted && Leq(d.clock, deleted.clock)
      && DecideUpload(deleted, u) == Refuse(InvalidState)
  {
    assert !Leq(d.clock, row.clock) by {
      if Leq(d.clock, row.clock) {
        AtMostTransitive(Clock(d.clock), Clock(row.clock), Clock(u.clock));
      }
    }
    DeleteAccepts(DecideUpload(row, u).row, d, days, later);
    DeleteAccepts(row, d, days, now);
  }

  /** The condition is exact: a delete that the accepted upload covers is refused. */
  lemma DeleteAfterUploadWinsIff(row: Row, u: UploadInput, d: AssetMutation, days: int, now: Time)
    requires Shape(row) && row.state == Active && u.Valid() && d.Valid()
    requires DecideUpload(row, u).Write?
    ensures DecideDelete(DecideUpload(row, u).row, d, days, now).Write? <==> !Leq(d.clock, u.clock)
  {
    DeleteAccepts(DecideUpload(row, u).row, d, days, now);
  }

  // ---------------------------------------------------------------- at most once

  /** The row has caught up with the request's clock, or can no longer change. */
  ghost predicate Absorbed(request: Request, row: Row) {
    !request.Cleanup? && (row.state == Purged || Leq(request.Sent(), row.clock))
  }

  lemma AppliedIsAbsorbed(row: Row, request: Request, now: Time)
    requires Shape(row) && request.Valid() && !request.Cleanup?
    ensures Decide(row, request, now).Write? ==> Absorbed(request, Decide(row, request, now).row)
    ensures request.Upload? && Decide(row, request, now).Keep? ==> Absorbed(request, row)
  {
    match request
    case Upload(u) =>
    case Delete(m, days) =>
      if Decide(row, request, now).Write? && Compare(m.clock, row.clock) == Ok(Conflict) {
        MergeIsJoin(m.clock, row.clock, Decide(row, request, now).row.clock);
      }
    case Restore(m) =>
    case Purge(m) =>
  }

  lemma AbsorbedIsInert(row: Row, request: Request, now: Time)
    requires Shape(row) && request.Valid() && Absorbed(request, row)
    ensures !Decide(row, request, now).Write?
  {
  }

  lemma AbsorbedForever(request: Request, was: Row, now: Row)
    requires Absorbed(request, was) && RowEvolves(was, now)
    ensures Absorbed(request, now)
  {
    if now.state != Purged {
      AtMostTransitive(Clock(request.Sent()), Clock(was.clock), Clock(now.clock));
    }
  }

  /** The asset's row after a request that took effect, or an upload that found its own content. */
  lemma AcceptedIsAbsorbed(
      db: Db, user: UserId, asset: string, request: Request, revisions: map<RowId, Revision>, now: Time)
    requires WellFormed(db) && !request.Cleanup?
    requires ValidStep(db, Locked(user, Mutate(asset, request), revisions, now))
    requires var plan := PlanOf(db, user, Mutate(asset, request), now);
      plan.Save? || (plan.Unchanged? && request.Upload?)
    ensures FindByAsset(db, user, asset).Some?
    ensures var id := FindByAsset(db, user, asset).value.id;
      var after := LockedNext(db, user, Mutate(asset, request), revisions, now);
      Holds(after, id, user, asset) && Absorbed(request, after.rows[id])
  {
    AssetLookup(db, user, asset);
    var row := FindByAsset(db, user, asset).value;
    AppliedIsAbsorbed(row, request, now);
    if Decide(row, request, now).Write? {
      DecisionIsRowStep(row, request, now);
      var next := Decide(row, request, now).row.(updatedAt := now);
      var op := Mutate(asset, request);
      SavingStep(db, user, op, revisions, now, Plan.Save(map[row.id := next], false));
      OneRowAfter(db, user, next, revisions);
    }
  }

  /**
    At most once: whatever run follows a request that took effect, replaying that request on the
    same row, at any time, changes nothing and issues no revision.
   */
  lemma ReplayIsInert(db: Db, user: UserId, asset: string, request: Request, revisions: map<RowId, Revision>, now: Time,
                      steps: seq<Step>, later: Time)
    requires WellFormed(db) && !request.Cleanup?
    requires ValidStep(db, Locked(user, Mutate(asset, request), revisions, now))
    requires var plan := PlanOf(db, user, Mutate(asset, request), now);
      plan.Save? || (plan.Unchanged? && request.Upload?)
    requires ValidRun(LockedNext(db, user, Mutate(asset, request), revisions, now), steps)
    requires FindByAsset(db, user, asset).Some? ==>
      FindByAsset(db, user, asset).value.id
        in After(LockedNext(db, user, Mutate(asset, request), revisions, now), steps).rows
    ensures var last := After(LockedNext(db, user, Mutate(asset, request), revisions, now), steps);
      var plan := PlanOf(last, user, Mutate(asset, request), later);
      !plan.Save? && !plan.Drop?
  {
    AcceptedIsAbsorbed(db, user, asset, request, revisions, now);
    var next := LockedNext(db, user, Mutate(asset, request), revisions, now);
    StepIsLawful(db, Locked(user, Mutate(asset, request), revisions, now));
    AbsorbedStaysInert(next, FindByAsset(db, user, asset).value.id, user, asset, request, steps, later);
  }

  lemma AbsorbedStaysInert(
      db: Db, id: RowId, user: UserId, asset: string, request: Request, steps: seq<Step>, later: Time)
    requires WellFormed(db) && ValidRun(db, steps) && asset != "" && request.Valid()
    requires Holds(db, id, user, asset) && Absorbed(request, db.rows[id]) && id in After(db, steps).rows
    ensures var plan := PlanOf(After(db, steps), user, Mutate(asset, request), later); !plan.Save? && !plan.Drop?
  {
    var last := After(db, steps);
    RunIsLawful(db, steps);
    AbsorbedForever(request, db.rows[id], last.rows[id]);
    AssetLookup(last, user, asset);
    assert Holds(last, id, user, asset);
    AbsorbedIsInert(last.rows[id], request, later);
  }

  /** A first upload is absorbed too: replaying it after it created the row is inert. */
  lemma ReplayedCreateIsInert(
      db: Db, user: UserId, id: RowId, u: UploadInput, revisions: map<RowId, Revision>, now: Time,
      steps: seq<Step>, later: Time)
    requires WellFormed(db) && u.asset != "" && ValidStep(db, Locked(user, Create(id, u), revisions, now))
    requires PlanOf(db, user, Create(id, u), now).Save?
    requires ValidRun(LockedNext(db, user, Create(id, u), revisions, now), steps)
    requires id in After(LockedNext(db, user, Create(id, u), revisions, now), steps).rows
    ensures var last := After(LockedNext(db, user, Create(id, u), revisions, now), steps);
      var again := PlanOf(last, user, Mutate(u.asset, Upload(u)), later);
      !again.Save? && !again.Drop?
  {
    var next := LockedNext(db, user, Create(id, u), revisions, now);
    StepIsLawful(db, Locked(user, Create(id, u), revisions, now));
    AbsorbedStaysInert(next, id, user, u.asset, Upload(u), steps, later);
  }

  /** A client that repeats an accepted request at once is told that it succeeded; the cleaner finds nothing to do. */
  lemma AcceptedRetryIsKept(row: Row, request: Request, now: Time, later: Time)
    requires Shape(row) && request.Valid() && Decide(row, request, now).Write?
    ensures Decide(Decide(row, request, now).row, request, later) == Keep
  {
    if request.Upload? {
      assert Compare(request.upload.clock, request.upload.clock) == Ok(Equal);
    }
  }

  // ---------------------------------------------------------------- success without effect

  function Xs(n: nat): string {
    seq(n, _ => 'x')
  }

  lemma {:induction false} FreshKeyFrom(keys: set<string>, n: nat)
    ensures exists k: nat :: k >= n && Xs(k) !in keys
    decreases |keys|
  {
    if Xs(n) in keys {
      FreshKeyFrom(keys - {Xs(n)}, n + 1);
      var k: nat :| k >= n + 1 && Xs(k) !in keys - {Xs(n)};
      assert |Xs(k)| != |Xs(n)|;
    }
  }

  lemma XsIsNotBlank(n: nat)
    requires n > 0
    ensures !Blank(Xs(n))
  {
    var s := Xs(n);
    assert TrimLeft(s) == s;
    assert TrimRight(s) == s;
  }

  /** Above any clock there is a strictly newer one that does not cover a given uncovered clock. */
  lemma NewerButNotCovering(base: RawClock, uncovered: RawClock) returns (clock: RawClock)
    requires Parses(base) && Parses(uncovered) && !Leq(uncovered, base)
    ensures Parses(clock) && StrictlyNewer(clock, base) && !Leq(uncovered, clock)
  {
    var key :| At(Clock(uncovered), key) > At(Clock(base), key);
    FreshKeyFrom(Clock(base).Keys + {key}, 1);
    var n: nat :| n >= 1 && Xs(n) !in Clock(base).Keys + {key};
    XsIsNotBlank(n);
    clock := Encode(Clock(base)[Xs(n) := 1]);
    assert At(Clock(clock), Xs(n)) > At(Clock(base), Xs(n));
    assert At(Clock(clock), key) == At(Clock(base), key);
  }

  /**
    A delete answered through its operation id took no effect itself. Replaying it stays inert
    exactly when the row has already caught up with its clock: if it has not, one accepted restore
    is enough for the replay to delete the asset again.
   */
  lemma AnsweredByOperationIdReplaysIff(row: Row, m: AssetMutation, days: int, now: Time)
    requires Shape(row) && m.Valid() && row.state == Deleted && row.lastOp == m.op
    ensures Decide(row, Delete(m, days), now) == Keep
    ensures !Absorbed(Delete(m, days), row) <==>
      exists r: AssetMutation :: r.Valid() && Decide(row, Restore(r), now).Write?
        && Decide(Decide(row, Restore(r), now).row, Delete(m, days), now).Write?
  {
    if !Absorbed(Delete(m, days), row) {
      var clock := NewerButNotCovering(row.clock, m.clock);
      var r := m.(clock := clock);
      assert Decide(row, Restore(r), now).Write?;
      DeleteAccepts(DecideRestore(row, r).row, m, days, now);
    } else {
      forall r: AssetMutation | r.Valid() && Decide(row, Restore(r), now).Write?
        ensures !Decide(DecideRestore(row, r).row, Delete(m, days), now).Write?
      {
        AtMostTransitive(Clock(m.clock), Clock(row.clock), Clock(r.clock));
        DeleteAccepts(DecideRestore(row, r).row, m, days, now);
      }
    }
  }

  // ---------------------------------------------------------------- the same for restores

  /** At or above in every entry, and above by at least two in total. */
  ghost predicate ExceedsByTwo(high: RawClock, low: RawClock) {
    && Leq(low, high)
    && ((exists key :: At(Clock(high), key) >= At(Clock(low), key) + 2) ||
        (exists j, k :: j != k && At(Clock(high), j) > At(Clock(low), j) && At(Clock(high), k) > At(Clock(low), k)))
  }

  lemma RaisedEntry(low: RawClock, high: RawClock, key: string, n: int) returns (clock: RawClock)
    requires Parses(low) && Parses(high) && At(Clock(low), key) < n <= At(Clock(high), key)
    ensures Parses(clock) && StrictlyNewer(clock, low) && At(Clock(clock), key) == n
    ensures forall other :: other != key ==> At(Clock(clock), other) == At(Clock(low), other)
  {
    clock := Encode(Clock(low)[key := n]);
    assert At(Clock(clock), key) > At(Clock(low), key);
  }

  lemma Between(low: RawClock, high: RawClock) returns (clock: RawClock)
    requires Parses(low) && Parses(high) && ExceedsByTwo(high, low)
    ensures Parses(clock) && StrictlyNewer(clock, low) && StrictlyNewer(high, clock)
  {
    if key :| At(Clock(high), key) >= At(Clock(low), key) + 2 {
      clock := RaisedEntry(low, high, key, At(Clock(low), key) + 1);
      assert At(Clock(high), key) > At(Clock(clock), key);
    } else {
      var j, k :| j != k && At(Clock(high), j) > At(Clock(low), j) && At(Clock(high), k) > At(Clock(low), k);
      clock := RaisedEntry(low, high, j, At(Clock(high), j));
      assert At(Clock(high), k) > At(Clock(clock), k);
    }
  }

  lemma BetweenExceeds(low: RawClock, clock: RawClock, high: RawClock)
    requires StrictlyNewer(clock, low) && StrictlyNewer(high, clock)
    ensures ExceedsByTwo(high, low)
  {
    AtMostTransitive(Clock(low), Clock(clock), Clock(high));
    var k :| At(Clock(clock), k) > At(Clock(low), k);
    var j :| At(Clock(high), j) > At(Clock(clock), j);
    if j == k {
      assert At(Clock(high), k) >= At(Clock(low), k) + 2;
    } else {
      assert At(Clock(high), j) > At(Clock(low), j) && At(Clock(high), k) > At(Clock(low), k);
    }
  }

  const ONE_UUID := "00000000-0000-4000-8000-000000000001"
  const TWO_UUID := "00000000-0000-4000-8000-000000000002"

  /** An operation identifier other than this one. */
  lemma AnotherOperation(op: string) returns (other: string)
    ensures other != op && ValidUuid(Trim(other))
  {
    assert ValidUuid(ONE_UUID) && ValidUuid(TWO_UUID);
    UuidIsTrimmed(ONE_UUID);
    UuidIsTrimmed(TWO_UUID);
    assert ONE_UUID[35] != TWO_UUID[35];
    other := if op == ONE_UUID then TWO_UUID else ONE_UUID;
  }

  /**
    A restore answered through its operation id took no effect itself. Replaying it restores the asset
    a second time, after some accepted delete, exactly when its clock leaves room for that delete.
   */
  lemma AnsweredRestoreReplaysIff(row: Row, m: AssetMutation, days: int, now: Time)
    requires Shape(row) && m.Valid() && row.state == Active && row.lastOp == m.op && 7 <= days <= 3650
    ensures Decide(row, Restore(m), now) == Keep
    ensures ExceedsByTwo(m.clock, row.clock) <==>
      exists d: AssetMutation :: d.Valid() && d.op != m.op && Decide(row, Delete(d, days), now).Write?
        && Decide(Decide(row, Delete(d, days), now).row, Restore(m), now).Write?
  {
    if ExceedsByTwo(m.clock, row.clock) {
      var d := DeleteBelow(row, m, days, now);
    }
    forall d: AssetMutation | Decide(row, Delete(d, days), now).Write?
        && Decide(Decide(row, Delete(d, days), now).row, Restore(m), now).Write?
      ensures ExceedsByTwo(m.clock, row.clock)
    {
      var deleted := Decide(row, Delete(d, days), now).row;
      DeletionClock(d.clock, row.clock, deleted.clock);
      BetweenExceeds(row.clock, deleted.clock, m.clock);
    }
  }

  lemma NewerDeleteIsWritten(row: Row, d: AssetMutation, days: int, now: Time)
    requires row.state == Active && Parses(row.clock) && Parses(d.clock) && StrictlyNewer(d.clock, row.clock)
    ensures DecideDelete(row, d, days, now).Write?
    ensures var deleted := DecideDelete(row, d, days, now).row;
      deleted.state == Deleted && deleted.clock == d.clock && deleted.lastOp == d.op
  {
  }

  lemma NewerRestoreIsWritten(row: Row, m: AssetMutation)
    requires row.state == Deleted && Parses(row.clock) && Parses(m.clock) && StrictlyNewer(m.clock, row.clock)
    ensures DecideRestore(row, m).Write?
  {
  }

  lemma DeleteBelow(row: Row, m: AssetMutation, days: int, now: Time) returns (d: AssetMutation)
    requires Shape(row) && m.Valid() && row.state == Active && row.lastOp == m.op && ExceedsByTwo(m.clock, row.clock)
    ensures d.Valid() && d.op != m.op && Decide(row, Delete(d, days), now).Write?
    ensures Decide(Decide(row, Delete(d, days), now).row, Restore(m), now).Write?
  {
    var clock := Between(row.clock, m.clock);
    var op := AnotherOperation(m.op);
    d := m.(op := op, clock := clock);
    NewerDeleteIsWritten(row, d, days, now);
    NewerRestoreIsWritten(DecideDelete(row, d, days, now).row, m);
  }
}
