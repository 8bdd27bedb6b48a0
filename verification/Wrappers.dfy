/** Success/failure types shared by every module, with the errors the services return. */
module Wrappers {
  datatype Option<+T> = None | Some(value: T)

  datatype Result<+T> = Ok(value: T) | Err(error: Error)

  datatype Error =
    | InvalidInput
    | NotFound
    | InvalidState
    | AlreadyPurged
    | VectorClockConflict
    | MalformedClock
    | BlankActor
    | NilMapWrite // the Go runtime panic: assignment to an entry of a nil map
    | UserMissing
    | DuplicateAsset // violation of the unique index on (user_id, asset_id)
    | LegacyDeleteProtected
    | SnapshotMismatch
    | SnapshotStale
    | InvalidCredential
    | AccountDeleted
    | AccountBanned
    | Fault // the database or the random source failed
    | InviteRequired
    | InviteInvalid
    | UserAlreadyExists
}
