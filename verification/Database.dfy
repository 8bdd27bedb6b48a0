/**
  The committed database and what one whole transaction does to it.

  `Next` is the specification of every write: a client request executed under the account lock, an
  acknowledgement, a physical tombstone collection, or an account change. Revision numbers are
  parameters of a step, so that the specification does not fix how a sequence with holes hands
  them out; `ValidStep` says what any such sequence guarantees under the account lock.
 */
module Database {
  import opened Wrappers
  import opened VectorClock
  import opened ServerConfig

  type Device = (UserId, string)

  datatype Db = Db(
    rows: map<RowId, Row>,
    log: map<Revision, Change>,
    acks: map<Device, Revision>,
    accounts: map<UserId, Account>)

  type Digest = Bytes

  datatype RekeyItem = RekeyItem(id: RowId, expectedClock: RawClock, blob: Bytes)

  datatype MigrationItem = MigrationItem(
    id: RowId, expectedClock: RawClock, expectedDigest: Digest, blob: Bytes, nextClock: RawClock)
  {
    ghost predicate Valid() {
      id != 0 && OTC2 <= blob && expectedClock.spelling != "" && nextClock.spelling != "" &&
      Compare(nextClock, expectedClock) == Ok(Newer)
    }
  }

  /** The transactions that hold the account lock. */
  datatype Op =
    | Create(id: RowId, input: UploadInput)
    | Mutate(asset: string, request: Request)
    | UploadById(id: RowId, input: UploadInput)
    | LegacyDelete(id: RowId)
    | Rotate(rekeys: seq<RekeyItem>, verify: string -> Result<bool>)
    | Migrate(moves: seq<MigrationItem>, sha256: Bytes -> Digest)

  datatype Plan =
    | Refused(error: Error)
    | Unchanged(row: Row)
    | Save(rows: map<RowId, Row>, newToken: bool)
    | Drop(id: RowId)

  datatype Step =
    | Locked(user: UserId, op: Op, revisions: map<RowId, Revision>, now: Time)
    | Ack(user: UserId, device: string, revision: Revision)
    | Collect(ids: set<RowId>)
    | SetAccount(user: UserId, account: Account)

  // ---------------------------------------------------------------- queries

  ghost predicate Holds(db: Db, id: RowId, user: UserId, asset: string) {
    id in db.rows && db.rows[id].user == user && db.rows[id].asset == asset
  }

  /** The asset is compared with a non-empty identifier only; `UniqueAssets` makes the row unique. */
  ghost function FindByAsset(db: Db, user: UserId, asset: string): Option<Row> {
    if exists id :: Holds(db, id, user, asset)
    then var id :| Holds(db, id, user, asset); Some(db.rows[id])
    else None
  }

  predicate OpenFor(row: Row, user: UserId) {
    row.user == user && row.state != Purged
  }

  /** The rows a bulk transaction has to replace. */
  function OpenRows(db: Db, user: UserId): (ids: set<RowId>)
    ensures forall id :: id in ids <==> id in db.rows && db.rows[id].user == user && db.rows[id].state != Purged
  {
    set id | id in db.rows && OpenFor(db.rows[id], user)
  }

  ghost predicate Logged(db: Db, user: UserId, revision: Revision) {
    revision in db.log && db.log[revision].user == user
  }

  // ---------------------------------------------------------------- plans

  function NewRow(user: UserId, id: RowId, u: UploadInput, now: Time): Row {
    Row(id, user, u.asset, u.fingerprint, u.blob, u.clock, Active, None, None, "", "", 0, now)
  }

  ghost function PlanMutation(row: Row, m: Mutation, now: Time): Plan {
    match m
    case Refuse(e) => Refused(e)
    case Keep => Unchanged(row)
    case Write(r) => Save(map[row.id := r.(updatedAt := now)], false)
  }

  /** The update of a record no client has bound to an asset yet. */
  ghost function DecideLegacy(row: Row, u: UploadInput): Mutation {
    match Compare(u.clock, row.clock)
    case Err(_) => Refuse(InvalidInput)
    case Ok(Newer) =>
      Write(row.(asset := u.asset, blob := u.blob, clock := u.clock, state := Active,
                 fingerprint := if u.fingerprint != "" then u.fingerprint else row.fingerprint))
    case Ok(Equal) => if row.blob == u.blob then Keep else Refuse(VectorClockConflict)
    case Ok(_) => Refuse(VectorClockConflict)
  }

  ghost function PlanUploadById(db: Db, user: UserId, id: RowId, u: UploadInput, now: Time): Plan {
    if id !in db.rows || db.rows[id].user != user then Refused(NotFound) else
    var row := db.rows[id];
    if row.IsDeleted() then Refused(InvalidState)
    else if u.asset != "" && row.asset != "" && row.asset != u.asset then Refused(InvalidInput)
    else if row.asset == "" && u.asset != "" && FindByAsset(db, user, u.asset).Some? then Refused(VectorClockConflict)
    else if row.asset != "" then PlanMutation(row, DecideUpload(row, u), now)
    else PlanMutation(row, DecideLegacy(row, u), now)
  }

  ghost function Authorized(account: Account, verify: string -> Result<bool>): Result<bool> {
    if account.deleted then Err(AccountDeleted)
    else if account.banned then Err(AccountBanned)
    else
      match verify(account.passwordHash)
      case Err(e) => Err(e)
      case Ok(matched) => if matched then Ok(true) else Err(InvalidCredential)
  }

  ghost predicate DistinctIds(ids: seq<RowId>) {
    forall i, j :: 0 <= i < j < |ids| ==> ids[i] != ids[j]
  }

  function IdsOf<T>(items: seq<T>, id: T -> RowId): (ids: seq<RowId>)
    ensures |ids| == |items| && forall i :: 0 <= i < |items| ==> ids[i] == id(items[i])
  {
    seq(|items|, i requires 0 <= i < |items| => id(items[i]))
  }

  function RekeyId(item: RekeyItem): RowId {
    item.id
  }

  function MigrationId(item: MigrationItem): RowId {
    item.id
  }

  function RekeyIds(items: seq<RekeyItem>): seq<RowId> {
    IdsOf(items, RekeyId)
  }

  function MigrationIds(items: seq<MigrationItem>): seq<RowId> {
    IdsOf(items, MigrationId)
  }

  /** The replacement list names every open row exactly once, and nothing else. */
  ghost predicate ExactSnapshot(db: Db, user: UserId, ids: seq<RowId>) {
    DistinctIds(ids) && (set id | id in ids) == OpenRows(db, user)
  }

  ghost predicate RekeyMatches(db: Db, item: RekeyItem) {
    item.id != 0 && item.expectedClock.spelling != "" && item.blob != [] &&
    item.id in db.rows && db.rows[item.id].clock == item.expectedClock
  }

  /** Check all, then write all: the simple form of the rotation. */
  ghost predicate RotationMatches(db: Db, user: UserId, items: seq<RekeyItem>) {
    && ExactSnapshot(db, user, RekeyIds(items))
    && forall i :: 0 <= i < |items| ==> RekeyMatches(db, items[i])
  }

  ghost predicate MoveMatches(db: Db, item: MigrationItem, sha256: Bytes -> Digest) {
    item.id != 0 && item.expectedClock.spelling != "" && item.nextClock.spelling != "" && item.blob != [] &&
    item.id in db.rows && db.rows[item.id].clock == item.expectedClock &&
    sha256(db.rows[item.id].blob) == item.expectedDigest
  }

  ghost predicate MigrationMatches(db: Db, user: UserId, items: seq<MigrationItem>, sha256: Bytes -> Digest) {
    && items != []
    && ExactSnapshot(db, user, MigrationIds(items))
    && forall i :: 0 <= i < |items| ==> MoveMatches(db, items[i], sha256)
  }

  ghost function IndexOf(ids: seq<RowId>, id: RowId): (i: nat)
    requires id in ids
    ensures i < |ids| && ids[i] == id
  {
    var i :| 0 <= i < |ids| && ids[i] == id;
    i
  }

  ghost function RekeyedRows(db: Db, user: UserId, items: seq<RekeyItem>, now: Time): map<RowId, Row>
    requires ExactSnapshot(db, user, RekeyIds(items))
  {
    map id | id in OpenRows(db, user) ::
      assert id in RekeyIds(items);
      db.rows[id].(blob := items[IndexOf(RekeyIds(items), id)].blob, updatedAt := now)
  }

  ghost function MigratedRows(db: Db, user: UserId, items: seq<MigrationItem>, now: Time): map<RowId, Row>
    requires ExactSnapshot(db, user, MigrationIds(items))
  {
    map id | id in OpenRows(db, user) ::
      assert id in MigrationIds(items);
      var item := items[IndexOf(MigrationIds(items), id)];
      db.rows[id].(blob := item.blob, clock := item.nextClock, updatedAt := now)
  }

  /**
    What a locked transaction does, as a function of the database it sees. An upload by row id
    reads the row before it locks the account, so a missing account shows as a missing row.
   */
  ghost function PlanOf(db: Db, user: UserId, op: Op, now: Time): Plan {
    if user !in db.accounts && !op.UploadById? then Refused(UserMissing) else
    match op
    case Create(id, u) =>
      if u.asset != "" && FindByAsset(db, user, u.asset).Some? then Refused(DuplicateAsset)
      else Save(map[id := NewRow(user, id, u, now)], false)
    case Mutate(asset, request) =>
      (match FindByAsset(db, user, asset)
       case None => Refused(NotFound)
       case Some(row) => PlanMutation(row, Decide(row, request, now), now))
    case UploadById(id, u) => PlanUploadById(db, user, id, u, now)
    case LegacyDelete(id) =>
      if id !in db.rows || db.rows[id].user != user then Refused(NotFound)
      else if db.rows[id].asset != "" then Refused(LegacyDeleteProtected)
      else Drop(id)
    case Rotate(items, verify) =>
      if Authorized(db.accounts[user], verify).Err? then Refused(Authorized(db.accounts[user], verify).error)
      else if RotationMatches(db, user, items) then Save(RekeyedRows(db, user, items, now), true)
      else Refused(SnapshotMismatch)
    case Migrate(items, sha256) =>
      if MigrationMatches(db, user, items, sha256) then Save(MigratedRows(db, user, items, now), false)
      else Refused(SnapshotMismatch)
  }

  // ---------------------------------------------------------------- effects

  ghost predicate DistinctRevisions(rows: map<RowId, Row>) {
    forall i, j | i in rows && j in rows && i != j :: rows[i].revision != rows[j].revision
  }

  ghost function LogOf(rows: map<RowId, Row>): (log: map<Revision, Change>)
    requires DistinctRevisions(rows)
    ensures forall id | id in rows :: rows[id].revision in log && log[rows[id].revision] == ChangeOf(rows[id])
    ensures forall r | r in log :: exists id :: id in rows && rows[id].revision == r
  {
    map id | id in rows :: rows[id].revision := ChangeOf(rows[id])
  }

  /** Save rows, append one change each, and index the rows by their new revisions. */
  ghost function SaveAll(db: Db, rows: map<RowId, Row>): Db
    requires DistinctRevisions(rows)
  {
    db.(rows := db.rows + rows, log := db.log + LogOf(rows))
  }

  ghost predicate Injective(revisions: map<RowId, Revision>) {
    forall i, j | i in revisions && j in revisions && i != j :: revisions[i] != revisions[j]
  }

  ghost function Stamp(rows: map<RowId, Row>, revisions: map<RowId, Revision>): (r: map<RowId, Row>)
    requires rows.Keys <= revisions.Keys && Injective(revisions)
    ensures DistinctRevisions(r)
  {
    map id | id in rows :: rows[id].(revision := revisions[id])
  }

  function NextToken(account: Account): Account {
    account.(tokenVersion := account.tokenVersion + 1)
  }

  ghost predicate Stampable(plan: Plan, revisions: map<RowId, Revision>) {
    plan.Save? ==> plan.rows.Keys <= revisions.Keys && Injective(revisions)
  }

  ghost function Execute(db: Db, user: UserId, plan: Plan, revisions: map<RowId, Revision>): Db
    requires Stampable(plan, revisions) && (plan.Save? && plan.newToken ==> user in db.accounts)
  {
    match plan
    case Save(rows, newToken) =>
      var saved := SaveAll(db, Stamp(rows, revisions));
      if newToken then saved.(accounts := saved.accounts[user := NextToken(saved.accounts[user])]) else saved
    case Drop(id) => db.(rows := db.rows - {id})
    case _ => db
  }

  ghost function LockedNext(db: Db, user: UserId, op: Op, revisions: map<RowId, Revision>, now: Time): Db
    requires Stampable(PlanOf(db, user, op, now), revisions)
  {
    Execute(db, user, PlanOf(db, user, op, now), revisions)
  }

  function Larger(a: nat, b: nat): nat {
    if a >= b then a else b
  }

  ghost function Next(db: Db, step: Step): Db
    requires ValidStep(db, step)
  {
    match step
    case Locked(user, op, revisions, now) => LockedNext(db, user, op, revisions, now)
    case Ack(user, device, revision) =>
      var key := (user, device);
      db.(acks := db.acks[key := if key in db.acks then Larger(db.acks[key], revision) else revision])
    case Collect(ids) => db.(rows := db.rows - ids)
    case SetAccount(user, account) => db.(accounts := db.accounts[user := account])
  }

  /** An identifier the log has never mentioned; every row ever committed is in the log. */
  ghost predicate FreshId(db: Db, id: RowId) {
    id !in db.rows && forall r | r in db.log :: db.log[r].config != id
  }

  ghost predicate FreshRevision(db: Db, user: UserId, revision: Revision) {
    revision > 0 && revision !in db.log && forall r: Revision | Logged(db, user, r) :: r < revision
  }

  ghost predicate ValidOp(db: Db, op: Op) {
    match op
    case Create(id, u) => FreshId(db, id) && u.Valid()
    case Mutate(asset, request) => asset != "" && request.Valid()
    case UploadById(id, u) => u.Valid()
    case LegacyDelete(id) => true
    case Rotate(items, verify) => true
    case Migrate(items, sha256) => forall i :: 0 <= i < |items| ==> items[i].Valid()
  }

  ghost predicate ValidStep(db: Db, step: Step) {
    match step
    case Locked(user, op, revisions, now) =>
      && ValidOp(db, op) && Representable(now)
      && Stampable(PlanOf(db, user, op, now), revisions)
      && (PlanOf(db, user, op, now).Save? ==> forall id | id in revisions :: FreshRevision(db, user, revisions[id]))
    case Ack(user, device, revision) => revision == 0 || exists r: Revision :: Logged(db, user, r) && r >= revision
    case Collect(ids) => forall id | id in ids && id in db.rows :: db.rows[id].state == Purged
    case SetAccount(user, account) => true
  }

  // ---------------------------------------------------------------- what every reachable database satisfies

  /** The log is indexed by the rows: a row's revision is the id of the last log entry about it. */
  ghost predicate Indexed(db: Db, id: RowId)
    requires id in db.rows
  {
    var row := db.rows[id];
    && row.revision in db.log && db.log[row.revision] == ChangeOf(row)
    && forall r | r in db.log && db.log[r].config == id :: r <= row.revision && db.log[r].user == row.user
  }

  ghost predicate UniqueAssets(rows: map<RowId, Row>) {
    forall i, j | i in rows && j in rows && rows[i].user == rows[j].user && rows[i].asset == rows[j].asset &&
                  rows[i].asset != "" :: i == j
  }

  /** A watermark never exceeds the highest revision ever committed for its account. */
  ghost predicate AcksBounded(db: Db) {
    forall key | key in db.acks :: db.acks[key] == 0 || exists r: Revision :: Logged(db, key.0, r) && r >= db.acks[key]
  }

  ghost predicate WellFormed(db: Db) {
    && 0 !in db.log
    && (forall id | id in db.rows ::
          db.rows[id].id == id && db.rows[id].user in db.accounts && Shape(db.rows[id]) && Indexed(db, id))
    && UniqueAssets(db.rows)
    && AcksBounded(db)
  }

  // ---------------------------------------------------------------- what any further run guarantees

  ghost predicate RowEvolves(was: Row, now: Row) {
    && now.id == was.id && now.user == was.user
    && (was.asset != "" ==> now.asset == was.asset)
    && was.revision <= now.revision
    && (was.revision == now.revision ==> now == was)
    && (was.state == Purged ==> now == was)
    && (now.state != Purged ==> Leq(was.clock, now.clock))
  }

  ghost predicate LogGrows(was: Db, now: Db) {
    && (forall r | r in was.log :: r in now.log && now.log[r] == was.log[r])
    && (forall r, s | r in was.log && s in now.log && s !in was.log && was.log[r].user == now.log[s].user :: r < s)
  }

  /** Reflexive and, from a well-formed database, transitive: the guarantee of runs of any length. */
  ghost predicate Evolves(was: Db, now: Db) {
    && LogGrows(was, now)
    && was.accounts.Keys <= now.accounts.Keys
    && (forall id | id in was.rows && id in now.rows :: RowEvolves(was.rows[id], now.rows[id]))
    && (forall id | id in now.rows && id !in was.rows :: FreshId(was, id))
    && (forall key | key in was.acks :: key in now.acks && was.acks[key] <= now.acks[key])
  }
}
