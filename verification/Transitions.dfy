/**
  The closures the services hand to `MutateByAssetID`, as they run on the locked row.

  The source passes them as functions; here a `Request` names which one to run.
 */
module Transitions {
  import opened Wrappers
  import opened Text
  import opened VectorClock
  import opened ServerConfig

  method MutateUpload(locked: Row, u: UploadInput) returns (m: Mutation)
    ensures m == DecideUpload(locked, u)
  {
    var current := locked;
    if current.IsDeleted() {
      return Refuse(InvalidState);
    }
    var relation := CompareVectorClock(u.clock, current.clock);
    if relation.Err? {
      return Refuse(InvalidInput);
    }
    match relation.value
    case Older => return Refuse(VectorClockConflict);
    case Conflict => return Refuse(VectorClockConflict);
    case Equal =>
      if current.blob == u.blob && (u.fingerprint == "" || current.fingerprint == u.fingerprint) {
        return Keep;
      }
      return Refuse(VectorClockConflict);
    case Newer =>
      current := current.(blob := u.blob, clock := u.clock);
      if u.fingerprint != "" {
        current := current.(fingerprint := u.fingerprint);
      }
      return Write(current);
  }

  method MutateDelete(locked: Row, input: AssetMutation, days: int, now: Time) returns (m: Mutation)
    ensures m == DecideDelete(locked, input, days, now)
  {
    var cfg := locked;
    if cfg.lastOp == input.op && cfg.IsDeleted() {
      return Keep;
    }
    if cfg.state == Purged {
      return Refuse(AlreadyPurged);
    }
    var relation := CompareVectorClock(input.clock, cfg.clock);
    if relation.Err? {
      return Refuse(InvalidInput);
    }
    if relation.value == Older || relation.value == Equal {
      return Refuse(VectorClockConflict);
    }
    var clock := input.clock;
    if relation.value == Conflict {
      var merged := MergeVectorClocks(input.clock, cfg.clock);
      if merged.Err? {
        return Refuse(InvalidInput);
      }
      clock := merged.value;
    }
    cfg := cfg.(state := Deleted, clock := clock, deletedBy := Trim(input.device), lastOp := input.op);
    if cfg.deletedAt.None? {
      cfg := cfg.(deletedAt := Some(now), purgeAfter := Some(now + days * DAY));
    }
    return Write(cfg);
  }

  method MutateRestore(locked: Row, input: AssetMutation) returns (m: Mutation)
    ensures m == DecideRestore(locked, input)
  {
    var cfg := locked;
    if cfg.lastOp == input.op && cfg.state == Active {
      return Keep;
    }
    if cfg.state == Purged {
      return Refuse(AlreadyPurged);
    }
    if cfg.state != Deleted {
      return Refuse(InvalidState);
    }
    var relation := CompareVectorClock(input.clock, cfg.clock);
    if relation.Err? {
      return Refuse(InvalidInput);
    }
    if relation.value != Newer {
      return Refuse(VectorClockConflict);
    }
    cfg := cfg.(state := Active, clock := input.clock);
    cfg := cfg.(deletedAt := None, purgeAfter := None, deletedBy := "", lastOp := input.op);
    return Write(cfg);
  }

  method MutatePurge(locked: Row, input: AssetMutation) returns (m: Mutation)
    ensures m == DecidePurge(locked, input)
  {
    var cfg := locked;
    if cfg.lastOp == input.op && cfg.state == Purged {
      return Keep;
    }
    if cfg.state == Purged {
      return Refuse(AlreadyPurged);
    }
    if cfg.state != Deleted {
      return Refuse(InvalidState);
    }
    var relation := CompareVectorClock(input.clock, cfg.clock);
    if relation.Err? {
      return Refuse(InvalidInput);
    }
    if relation.value != Newer {
      return Refuse(VectorClockConflict);
    }
    cfg := cfg.(state := Purged, clock := input.clock);
    cfg := cfg.(blob := [], purgeAfter := None, lastOp := input.op);
    return Write(cfg);
  }

  method MutateCleanup(locked: Row, operation: Result<string>, now: Time) returns (m: Mutation)
    ensures m == DecideCleanup(locked, operation, now)
  {
    var current := locked;
    if current.state != Deleted || current.purgeAfter.None? || current.purgeAfter.value > now {
      return Keep;
    }
    var clock := BumpVectorClock(current.clock, CLEANUP_ACTOR, UnixMilli(now));
    if clock.Err? {
      return Refuse(clock.error);
    }
    if operation.Err? {
      return Refuse(operation.error);
    }
    current := current.(state := Purged, clock := clock.value);
    current := current.(blob := [], purgeAfter := None, lastOp := operation.value);
    return Write(current);
  }

  method Mutate(locked: Row, request: Request, now: Time) returns (m: Mutation)
    ensures m == Decide(locked, request, now)
  {
    match request
    case Upload(u) => m := MutateUpload(locked, u);
    case Delete(input, days) => m := MutateDelete(locked, input, days, now);
    case Restore(input) => m := MutateRestore(locked, input);
    case Purge(input) => m := MutatePurge(locked, input);
    case Cleanup(operation) => m := MutateCleanup(locked, operation, now);
  }
}
