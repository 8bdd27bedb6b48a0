/** Master-key rotation: replace every open ciphertext of an account, or nothing, and retire its tokens. */
module MasterKeyRotation {
  import opened Wrappers
  import opened Text
  import opened ServerConfig
  import opened Database
  import opened Evolution
  import opened Selection
  import opened Store
  import opened Snapshot

  predicate Usable(item: RekeyItem) {
    item.id != 0 && item.expectedClock.spelling != "" && item.blob != []
  }

  /** Does the row still have the clock its replacement was made for? */
  predicate Current(byId: map<RowId, RekeyItem>, config: Row) {
    config.id in byId && config.clock == byId[config.id].expectedClock
  }

  ghost predicate Replaces(byId: map<RowId, RekeyItem>, config: Row, row: Row, now: Time) {
    && Current(byId, config)
    && row == config.(blob := byId[config.id].blob, updatedAt := now, revision := row.revision)
  }

  /** The rows written so far: each replaces its snapshot row, under the next drawn revision. */
  ghost predicate Replaced(
      byId: map<RowId, RekeyItem>, configs: seq<Row>, written: seq<Row>, first: Revision, now: Time)
    requires |written| <= |configs|
  {
    forall i :: 0 <= i < |written| ==>
      Replaces(byId, configs[i], written[i], now) && written[i].revision == first + 1 + i
  }

  /** A completed loop has checked everything that the simple form checks. */
  lemma CompletedMatches(
      base: Db, user: UserId, configs: seq<Row>, items: seq<RekeyItem>, byId: map<RowId, RekeyItem>)
    requires IsSnapshot(base, user, configs) && |configs| == |items| && Indexes(byId, items, RekeyId, Usable)
    requires forall n :: 0 <= n < |configs| ==> Current(byId, configs[n])
    ensures RotationMatches(base, user, items)
  {
    var ids := RekeyIds(items);
    CountedSnapshot(base, user, configs, ids);
    forall i | 0 <= i < |items| ensures RekeyMatches(base, items[i]) {
      assert ids[i] in OpenRows(base, user);
      assert items[i].id in Ids(configs);
      var k :| 0 <= k < |configs| && configs[k].id == items[i].id;
      assert Usable(items[i]) && byId[configs[k].id] == items[i];
    }
  }

  lemma PlannedRekey(
      base: Db, user: UserId, config: Row, items: seq<RekeyItem>, byId: map<RowId, RekeyItem>, row: Row, time: Time)
    requires RotationMatches(base, user, items) && Indexes(byId, items, RekeyId, Usable)
    requires config.id in OpenRows(base, user) && base.rows[config.id] == config && Replaces(byId, config, row, time)
    ensures IsStampOf(row, RekeyedRows(base, user, items, time)[config.id])
  {
    var ids := RekeyIds(items);
    assert config.id in ids;
    assert byId[config.id] == items[IndexOf(ids, config.id)];
  }

  /** And it has written exactly what the simple form writes. */
  lemma CompletedStages(
      base: Db, user: UserId, configs: seq<Row>, items: seq<RekeyItem>, byId: map<RowId, RekeyItem>,
      staged: map<RowId, Row>, planned: map<RowId, Row>, time: Time)
    requires Covers(base, user, configs) && Indexes(byId, items, RekeyId, Usable) && RotationMatches(base, user, items)
    requires planned == RekeyedRows(base, user, items, time) && staged.Keys == Ids(configs)
    requires forall k :: 0 <= k < |configs| ==>
      configs[k].id in staged && Replaces(byId, configs[k], staged[configs[k].id], time)
    ensures StagesPlan(staged, planned)
  {
    forall k | 0 <= k < |configs|
      ensures configs[k].id in Ids(configs) && configs[k].id in planned
      ensures IsStampOf(staged[configs[k].id], planned[configs[k].id])
    {
      assert configs[k].id in Ids(configs);
      PlannedRekey(base, user, configs[k], items, byId, staged[configs[k].id], time);
    }
    StagesEach(configs, staged, planned);
  }

  /** What the exact snapshot means for the loop: no row of it can fail. */
  lemma MatchingSnapshot(base: Db, user: UserId, configs: seq<Row>, items: seq<RekeyItem>)
    requires IsSnapshot(base, user, configs) && RotationMatches(base, user, items)
    ensures |configs| == |items| && DistinctIds(RekeyIds(items)) && forall i :: 0 <= i < |items| ==> Usable(items[i])
    ensures forall byId: map<RowId, RekeyItem>, n :: Indexes(byId, items, RekeyId, Usable) && 0 <= n < |configs| ==>
      configs[n].id in byId && configs[n].clock == byId[configs[n].id].expectedClock
  {
    ExactSnapshotCounts(base, user, configs, RekeyIds(items));
    forall i | 0 <= i < |items| ensures Usable(items[i]) {
      assert RekeyMatches(base, items[i]);
    }
    forall byId: map<RowId, RekeyItem>, n | Indexes(byId, items, RekeyId, Usable) && 0 <= n < |configs|
      ensures configs[n].id in byId && configs[n].clock == byId[configs[n].id].expectedClock
    {
      var i := IndexOf(RekeyIds(items), configs[n].id);
      assert RekeyMatches(base, items[i]) && byId[configs[n].id] == items[i];
    }
  }

  // ---------------------------------------------------------------- the transaction

  /** The three outcomes of the simple form. */
  lemma RotationPlan(db: Db, user: UserId, items: seq<RekeyItem>, verify: string -> Result<bool>, now: Time)
    requires user in db.accounts
    ensures Authorized(db.accounts[user], verify).Err? ==>
      PlanOf(db, user, Op.Rotate(items, verify), now) == Refused(Authorized(db.accounts[user], verify).error)
    ensures Authorized(db.accounts[user], verify).Ok? && !RotationMatches(db, user, items) ==>
      PlanOf(db, user, Op.Rotate(items, verify), now) == Refused(SnapshotMismatch)
    ensures Authorized(db.accounts[user], verify).Ok? && RotationMatches(db, user, items) ==>
      PlanOf(db, user, Op.Rotate(items, verify), now) == Plan.Save(RekeyedRows(db, user, items, now), true)
  {
  }

  /** Runs under the account lock. Only a live, unbanned account with the right password passes, and in that order. */
  method Authorize(account: Account, verify: string -> Result<bool>) returns (r: Result<bool>)
    ensures r.Ok? <==> !account.deleted && !account.banned && verify(account.passwordHash) == Ok(true)
    ensures account.deleted ==> r == Err(AccountDeleted)
    ensures !account.deleted && account.banned ==> r == Err(AccountBanned)
    ensures !account.deleted && !account.banned && verify(account.passwordHash).Err? ==>
      r == verify(account.passwordHash)
    ensures !account.deleted && !account.banned && verify(account.passwordHash) == Ok(false) ==>
      r == Err(InvalidCredential)
  {
    if account.deleted {
      return Err(AccountDeleted);
    }
    if account.banned {
      return Err(AccountBanned);
    }
    var matched := verify(account.passwordHash);
    if matched.Err? {
      return matched;
    }
    if !matched.value {
      return Err(InvalidCredential);
    }
    return Ok(true);
  }

  /**
    Check and write row by row. At the first row that does not match, everything written so far is
    rolled back; only the revision sequence keeps the numbers it has handed out.
   */
  method ReplaceEach(tables: Tables, configs: seq<Row>, byId: map<RowId, RekeyItem>, now: Time, ghost base: Db)
    returns (done: nat, ghost written: seq<Row>)
    requires tables.SequencesAhead() && base == tables.Value()
    requires forall i :: 0 <= i < |configs| ==> configs[i].id <= tables.lastRow
    modifies tables`rows, tables`log, tables`lastRevision
    ensures tables.SequencesAhead() && done <= |configs|
    ensures done == |configs| ==> |written| == done && Replaced(byId, configs, written, old(tables.lastRevision), now)
    ensures done == |configs| ==> tables.Value() == WriteAll(base, written)
    ensures done < |configs| ==>
      !Current(byId, configs[done]) && tables.rows == old(tables.rows) && tables.log == old(tables.log)
  {
    var rows, log := tables.rows, tables.log;
    ghost var first := tables.lastRevision;
    written := [];
    for n := 0 to |configs|
      invariant |written| == n && tables.lastRevision == first + n && tables.SequencesAhead()
      invariant tables.Value() == WriteAll(base, written) && Replaced(byId, configs, written, first, now)
    {
      if !Current(byId, configs[n]) {
        Rollback(tables, rows, log, first);
        return n, written;
      }
      var row := WriteNext(tables, configs[n].(blob := byId[configs[n].id].blob), now, base, written);
      written := written + [row];
    }
    return |configs|, written;
  }

  method Rollback(tables: Tables, rows: map<RowId, Row>, log: map<Revision, Change>, ghost first: Revision)
    requires Ahead(log, first, tables.lastRow) && first <= tables.lastRevision
    modifies tables`rows, tables`log
    ensures tables.rows == rows && tables.log == log && tables.SequencesAhead()
  {
    tables.rows, tables.log := rows, log;
  }

  /** One step of the specification, or nothing. */
  ghost predicate Rotated(
      before: Db, user: UserId, items: seq<RekeyItem>, verify: string -> Result<bool>, now: Time, after: Db,
      revisions: map<RowId, Revision>, r: Result<Account>)
  {
    match PlanOf(before, user, Op.Rotate(items, verify), now)
    case Refused(e) => r == Err(e) && after == before
    case Save(_, _) =>
      && ValidStep(before, Locked(user, Op.Rotate(items, verify), revisions, now))
      && after == Next(before, Locked(user, Op.Rotate(items, verify), revisions, now))
      && user in after.accounts && r == Ok(after.accounts[user])
    case _ => false
  }

  /** A rotation that stops at any of its checks. */
  lemma RotationRefuses(
      db: Db, user: UserId, items: seq<RekeyItem>, verify: string -> Result<bool>, now: Time,
      revisions: map<RowId, Revision>, e: Error)
    requires if user !in db.accounts then e == UserMissing
             else if Authorized(db.accounts[user], verify).Err? then e == Authorized(db.accounts[user], verify).error
             else e == SnapshotMismatch && !RotationMatches(db, user, items)
    ensures Rotated(db, user, items, verify, now, db, revisions, Err(e))
  {
  }

  lemma ReplacedAreDistinct(
      configs: seq<Row>, byId: map<RowId, RekeyItem>, written: seq<Row>, first: Revision, now: Time)
    requires forall i, j :: 0 <= i < j < |configs| ==> configs[i].id < configs[j].id
    requires |written| == |configs| && Replaced(byId, configs, written, first, now)
    ensures DistinctRows(written) && Drawn(written, first) && Ids(written) == Ids(configs)
    ensures forall i :: 0 <= i < |written| ==> written[i].id == configs[i].id
  {
    forall i | 0 <= i < |written| ensures written[i].id == configs[i].id && written[i].revision == first + 1 + i {
      assert Replaces(byId, configs[i], written[i], now);
    }
  }

  /** The rows of a completed loop, by identifier. */
  lemma ReplacedRows(
      configs: seq<Row>, byId: map<RowId, RekeyItem>, written: seq<Row>, first: Revision, now: Time,
      staged: map<RowId, Row>)
    requires |written| == |configs| && Replaced(byId, configs, written, first, now)
    requires forall i :: 0 <= i < |written| ==> written[i].id == configs[i].id
    requires forall i :: 0 <= i < |written| ==> written[i].id in staged && staged[written[i].id] == written[i]
    ensures forall k :: 0 <= k < |configs| ==>
      configs[k].id in staged && Replaces(byId, configs[k], staged[configs[k].id], now)
  {
    forall k | 0 <= k < |configs|
      ensures configs[k].id in staged && Replaces(byId, configs[k], staged[configs[k].id], now)
    {
      assert written[k].id in staged && Replaces(byId, configs[k], written[k], now);
    }
  }

  /** A completed loop, with the token version raised, is one step of the specification. */
  lemma RotationCommits(
      base: Db, done: Db, user: UserId, items: seq<RekeyItem>, verify: string -> Result<bool>,
      staged: map<RowId, Row>, first: Revision, now: Time)
    requires WellFormed(base) && Representable(now) && user in base.accounts
    requires Authorized(base.accounts[user], verify).Ok?
    requires RotationMatches(base, user, items) && StagesPlan(staged, RekeyedRows(base, user, items, now))
    requires Staged(base, done, staged) && forall r | r in base.log :: r <= first
    requires forall id | id in staged :: staged[id].revision > first
    ensures WellFormed(WithToken(done, user, true))
    ensures Rotated(base, user, items, verify, now, WithToken(done, user, true), RevisionsOf(staged),
                    Ok(NextToken(base.accounts[user])))
  {
    RotationPlan(base, user, items, verify, now);
    var planned := RekeyedRows(base, user, items, now);
    var op := Op.Rotate(items, verify);
    var step := StagedCommits(base, done, staged, planned, true, user, op, now);
    TokenOf(done, user);
  }

  lemma TokenOf(db: Db, user: UserId)
    requires user in db.accounts
    ensures user in WithToken(db, user, true).accounts
    ensures WithToken(db, user, true).accounts[user] == NextToken(db.accounts[user])
  {
  }

  /** Lock the open rows, compare them with the replacement list, and replace them all or none. */
  method ReplaceSnapshot(
      tables: Tables, user: UserId, items: seq<RekeyItem>, ghost verify: string -> Result<bool>, now: Time)
    returns (replaced: bool, ghost revisions: map<RowId, Revision>)
    requires tables.Valid() && Representable(now) && user in tables.accounts
    requires Authorized(tables.accounts[user], verify).Ok?
    modifies tables`rows, tables`log, tables`lastRevision
    ensures tables.SequencesAhead() && replaced == RotationMatches(old(tables.Value()), user, items)
    ensures !replaced ==> tables.Value() == old(tables.Value())
    ensures replaced ==> WellFormed(WithToken(tables.Value(), user, true))
    ensures replaced ==>
      Rotated(old(tables.Value()), user, items, verify, now, WithToken(tables.Value(), user, true), revisions,
              Ok(NextToken(tables.accounts[user])))
  {
    ghost var base, first := tables.Value(), tables.lastRevision;
    revisions := map[];
    var configs := ListOpen(tables, user);
    if RotationMatches(base, user, items) {
      MatchingSnapshot(base, user, configs, items);
    }
    if |configs| != |items| {
      return false, revisions;
    }
    var byId := IndexItems(items, RekeyId, Usable);
    if byId.None? {
      return false, revisions;
    }
    SnapshotIsKnown(base, user, configs, first, tables.lastRow);
    var done; ghost var written;
    done, written := ReplaceEach(tables, configs, byId.value, now, base);
    if done == |configs| {
      ghost var staged := ItemsById(written);
      ReplacedAreDistinct(configs, byId.value, written, first, now);
      WrittenIsStaged(base, written);
      WrittenRows(written, first);
      ReplacedRows(configs, byId.value, written, first, now, staged);
      CompletedMatches(base, user, configs, items, byId.value);
      CompletedStages(base, user, configs, items, byId.value, staged, RekeyedRows(base, user, items, now), now);
      RotationCommits(base, tables.Value(), user, items, verify, staged, first, now);
      revisions := RevisionsOf(staged);
    }
    return done == |configs|, revisions;
  }

  /** The loop's interleaved checks and writes amount to checking everything first and writing everything then. */
  method RotateEncryptedConfigsAndToken(
      tables: Tables, user: UserId, items: seq<RekeyItem>, verify: string -> Result<bool>, now: Time)
    returns (r: Result<Account>, ghost revisions: map<RowId, Revision>)
    requires tables.Valid() && Representable(now)
    modifies tables
    ensures tables.Valid()
    ensures Rotated(old(tables.Value()), user, items, verify, now, tables.Value(), revisions, r)
    ensures Recorded(old(tables.history), tables.history, old(tables.Value()), tables.Value())
  {
    revisions := map[];
    ghost var base := tables.Value();
    if user !in tables.accounts {
      RotationRefuses(base, user, items, verify, now, revisions, UserMissing);
      return Err(UserMissing), revisions;
    }
    var account := tables.accounts[user];
    var authorized := Authorize(account, verify);
    if authorized.Err? {
      RotationRefuses(base, user, items, verify, now, revisions, authorized.error);
      return Err(authorized.error), revisions;
    }
    var replaced;
    replaced, revisions := ReplaceSnapshot(tables, user, items, verify, now);
    if !replaced {
      RotationRefuses(base, user, items, verify, now, revisions, SnapshotMismatch);
      return Err(SnapshotMismatch), revisions;
    }
    account := NextToken(account);
    tables.accounts := tables.accounts[user := account];
    tables.history := tables.history + [(base, tables.Value())];
    return Ok(account), revisions;
  }

  // ---------------------------------------------------------------- the service

  datatype TokenPair = TokenPair(access: string, refresh: string)

  predicate ValidItem(item: RekeyItem) {
    item.id != 0 && !Blank(item.expectedClock.spelling) && item.blob != []
  }

  /** The password check of one request, as a function of the stored hash. */
  function Verifier(verify: (string, string) -> Result<bool>, password: string): string -> Result<bool> {
    (hash: string) => verify(password, hash)
  }

  /** What the client is told: tokens are minted for the account as the transaction left it. */
  function TokensFor(
      rotated: Result<Account>, user: UserId, mint: (UserId, string, int) -> Result<TokenPair>): Result<TokenPair> {
    match rotated
    case Err(SnapshotMismatch) => Err(SnapshotStale)
    case Err(e) => Err(e)
    case Ok(account) => mint(user, account.name, account.tokenVersion)
  }

  predicate Accepts(user: UserId, password: string, items: seq<RekeyItem>) {
    user != 0 && !Blank(password) && forall i :: 0 <= i < |items| ==> ValidItem(items[i])
  }

  method Validate(user: UserId, password: string, items: seq<RekeyItem>) returns (r: Result<seq<RekeyItem>>)
    ensures r == if Accepts(user, password, items) then Ok(items) else Err(InvalidInput)
  {
    if user == 0 || Blank(password) {
      return Err(InvalidInput);
    }
    var replacements: seq<RekeyItem> := [];
    for n := 0 to |items|
      invariant replacements == items[..n] && forall i :: 0 <= i < n ==> ValidItem(items[i])
    {
      if !ValidItem(items[n]) {
        return Err(InvalidInput);
      }
      replacements := replacements + [items[n]];
    }
    assert items[..|items|] == items;
    return Ok(replacements);
  }

  /** The list names every row of the account that is not purged, each once, with the clock it has now. */
  ghost predicate NamesEveryRow(db: Db, user: UserId, items: seq<RekeyItem>) {
    && (forall i, j :: 0 <= i < j < |items| ==> items[i].id != items[j].id)
    && (forall i :: 0 <= i < |items| ==>
          && items[i].id in db.rows && db.rows[items[i].id].user == user && db.rows[items[i].id].state != Purged
          && db.rows[items[i].id].clock == items[i].expectedClock)
    && (forall id | id in db.rows && db.rows[id].user == user && db.rows[id].state != Purged ::
          exists i :: 0 <= i < |items| && items[i].id == id)
  }

  lemma MatchesIff(db: Db, user: UserId, items: seq<RekeyItem>)
    requires forall i :: 0 <= i < |items| ==> ValidItem(items[i])
    ensures RotationMatches(db, user, items) <==> NamesEveryRow(db, user, items)
  {
    var ids := RekeyIds(items);
    if RotationMatches(db, user, items) {
      MatchNames(db, user, items);
    }
    if NamesEveryRow(db, user, items) {
      NamesMatch(db, user, items);
    }
  }

  lemma MatchNames(db: Db, user: UserId, items: seq<RekeyItem>)
    requires RotationMatches(db, user, items)
    ensures NamesEveryRow(db, user, items)
  {
    var ids := RekeyIds(items);
    assert IdSet(ids) == OpenRows(db, user);
    forall i | 0 <= i < |items|
      ensures items[i].id in OpenRows(db, user) && db.rows[items[i].id].clock == items[i].expectedClock
    {
      assert ids[i] in IdSet(ids) && RekeyMatches(db, items[i]);
    }
    forall i, j | 0 <= i < j < |items| ensures items[i].id != items[j].id {
      assert ids[i] != ids[j];
    }
    forall id | id in OpenRows(db, user) ensures exists i :: 0 <= i < |items| && items[i].id == id {
      var i := IndexOf(ids, id);
      assert items[i].id == id;
    }
  }

  lemma NamesMatch(db: Db, user: UserId, items: seq<RekeyItem>)
    requires NamesEveryRow(db, user, items) && forall i :: 0 <= i < |items| ==> ValidItem(items[i])
    ensures RotationMatches(db, user, items)
  {
    var ids := RekeyIds(items);
    forall i | 0 <= i < |items| ensures RekeyMatches(db, items[i]) {
      assert ValidItem(items[i]) && Trim("") == "";
    }
    forall id | id in OpenRows(db, user) ensures id in ids {
      var i :| 0 <= i < |items| && items[i].id == id;
      assert ids[i] == id;
    }
    assert IdSet(ids) == OpenRows(db, user);
  }

  /**
    What the client is told, cause by cause, with the account as it was and as it is afterwards. Tokens
    are minted at the version the rotation has just raised, and nothing changes unless they are.
   */
  ghost predicate RotateAnswer(
      before: Db, user: UserId, password: string, items: seq<RekeyItem>, verify: (string, string) -> Result<bool>,
      mint: (UserId, string, int) -> Result<TokenPair>, now: Time, after: Db, r: Result<TokenPair>)
  {
    if user == 0 || Blank(password) || (exists i :: 0 <= i < |items| && Malformed(items[i])) then
      after == before && r == Err(InvalidInput)
    else if user !in before.accounts then after == before && r == Err(UserMissing)
    else
      var account := before.accounts[user];
      if account.deleted then after == before && r == Err(AccountDeleted)
      else if account.banned then after == before && r == Err(AccountBanned)
      else
        match verify(password, account.passwordHash)
        case Err(e) => after == before && r == Err(if e == SnapshotMismatch then SnapshotStale else e)
        case Ok(matched) =>
          if !matched then after == before && r == Err(InvalidCredential)
          else if !NamesEveryRow(before, user, items) then after == before && r == Err(SnapshotStale)
          else
            && ReplacedEachOnce(before, user, items, now, after)
            && after.accounts[user].tokenVersion == account.tokenVersion + 1
            && r == mint(user, after.accounts[user].name, after.accounts[user].tokenVersion)
  }

  predicate Malformed(item: RekeyItem) {
    item.id == 0 || Blank(item.expectedClock.spelling) || item.blob == []
  }

  /** A transaction that refuses is a refusal of the whole call; one that commits has replaced each row once. */
  lemma RotatedByCause(
      before: Db, user: UserId, items: seq<RekeyItem>, verify: string -> Result<bool>, now: Time, after: Db,
      revisions: map<RowId, Revision>, rotated: Result<Account>)
    requires WellFormed(before) && Rotated(before, user, items, verify, now, after, revisions, rotated)
    ensures user !in before.accounts ==> after == before && rotated == Err(UserMissing)
    ensures user in before.accounts && Authorized(before.accounts[user], verify).Err? ==>
      after == before && rotated == Err(Authorized(before.accounts[user], verify).error)
    ensures user in before.accounts && Authorized(before.accounts[user], verify).Ok? ==>
      if RotationMatches(before, user, items) then
        && ReplacedEachOnce(before, user, items, now, after) && user in after.accounts
        && rotated == Ok(after.accounts[user])
      else after == before && rotated == Err(SnapshotMismatch)
  {
    if user in before.accounts {
      RotationPlan(before, user, items, verify, now);
      if Authorized(before.accounts[user], verify).Ok? && RotationMatches(before, user, items) {
        RotationReplacesEachOnce(before, user, items, verify, revisions, now);
      }
    }
  }

  lemma RotateIsAnswered(
      before: Db, user: UserId, password: string, items: seq<RekeyItem>, verify: (string, string) -> Result<bool>,
      mint: (UserId, string, int) -> Result<TokenPair>, now: Time, after: Db, revisions: map<RowId, Revision>,
      rotated: Result<Account>)
    requires WellFormed(before) && Accepts(user, password, items)
    requires Rotated(before, user, items, Verifier(verify, password), now, after, revisions, rotated)
    ensures RotateAnswer(before, user, password, items, verify, mint, now, after, TokensFor(rotated, user, mint))
  {
    RotatedByCause(before, user, items, Verifier(verify, password), now, after, revisions, rotated);
    MatchesIff(before, user, items);
    forall i | 0 <= i < |items| ensures !Malformed(items[i]) {
      assert ValidItem(items[i]);
    }
  }

  lemma RejectIsAnswered(
      db: Db, user: UserId, password: string, items: seq<RekeyItem>, verify: (string, string) -> Result<bool>,
      mint: (UserId, string, int) -> Result<TokenPair>, now: Time)
    requires !Accepts(user, password, items)
    ensures RotateAnswer(db, user, password, items, verify, mint, now, db, Err(InvalidInput))
  {
    if user != 0 && !Blank(password) {
      var i :| 0 <= i < |items| && !ValidItem(items[i]);
      assert Malformed(items[i]);
    }
  }

  /** Password verification and token signing are parameters. */
  method Rotate(
      tables: Tables, user: UserId, password: string, items: seq<RekeyItem>, verify: (string, string) -> Result<bool>,
      mint: (UserId, string, int) -> Result<TokenPair>, now: Time)
    returns (r: Result<TokenPair>, ghost revisions: map<RowId, Revision>, ghost rotated: Result<Account>)
    requires tables.Valid() && Representable(now)
    modifies tables
    ensures tables.Valid()
    ensures RotateAnswer(old(tables.Value()), user, password, items, verify, mint, now, tables.Value(), r)
    ensures Accepts(user, password, items) ==>
      Rotated(old(tables.Value()), user, items, Verifier(verify, password), now, tables.Value(), revisions, rotated)
  {
    ghost var before := tables.Value();
    revisions, rotated := map[], Err(InvalidInput);
    var replacements := Validate(user, password, items);
    if replacements.Err? {
      RejectIsAnswered(before, user, password, items, verify, mint, now);
      return Err(replacements.error), revisions, rotated;
    }
    var account;
    account, revisions :=
      RotateEncryptedConfigsAndToken(tables, user, replacements.value, Verifier(verify, password), now);
    RotateIsAnswered(before, user, password, items, verify, mint, now, tables.Value(), revisions, account);
    return TokensFor(account, user, mint), revisions, account;
  }

  // ---------------------------------------------------------------- what a rotation did

  /** One open row after the rotation: its own replacement, under the very clock it had. */
  ghost predicate ReplacedBy(was: Row, now: Row, item: RekeyItem, time: Time) {
    && item.id == was.id && was.clock == item.expectedClock
    && now == was.(blob := item.blob, revision := now.revision, updatedAt := time)
  }

  ghost predicate Fresh(db: Db, user: UserId, revisions: map<RowId, Revision>) {
    Injective(revisions) && forall id | id in revisions :: FreshRevision(db, user, revisions[id])
  }

  /** Every open blob replaced once and nothing else, every clock kept, new distinct revisions, old tokens retired. */
  ghost predicate ReplacedEachOnce(db: Db, user: UserId, items: seq<RekeyItem>, time: Time, after: Db) {
    && after.rows.Keys == db.rows.Keys && |items| == |OpenRows(db, user)|
    && (forall i :: 0 <= i < |items| ==>
          && items[i].id in OpenRows(db, user)
          && ReplacedBy(db.rows[items[i].id], after.rows[items[i].id], items[i], time))
    && (forall id | id in db.rows && id !in OpenRows(db, user) :: after.rows[id] == db.rows[id])
    && (forall id, r: Revision | id in OpenRows(db, user) && Logged(db, user, r) :: r < after.rows[id].revision)
    && (forall i, j | i in OpenRows(db, user) && j in OpenRows(db, user) && i != j ::
          after.rows[i].revision != after.rows[j].revision)
    && user in db.accounts
    && after.accounts == db.accounts[user := db.accounts[user].(tokenVersion := db.accounts[user].tokenVersion + 1)]
    && after.acks == db.acks
  }

  lemma RekeyedRow(db: Db, user: UserId, items: seq<RekeyItem>, revisions: map<RowId, Revision>, now: Time,
      rows: map<RowId, Row>, i: nat)
    requires KeysAreIds(db.rows) && RotationMatches(db, user, items) && i < |items|
    requires OpenRows(db, user) <= revisions.Keys && Injective(revisions)
    requires rows == Stamp(RekeyedRows(db, user, items, now), revisions)
    ensures items[i].id in OpenRows(db, user) && items[i].id in rows
    ensures ReplacedBy(db.rows[items[i].id], rows[items[i].id], items[i], now)
  {
    var ids := RekeyIds(items);
    assert ids[i] in ids;
    assert IdSet(ids) == OpenRows(db, user);
    assert RekeyMatches(db, items[i]);
    assert IndexOf(ids, items[i].id) == i;
  }

  lemma RekeyedEachOnce(
      db: Db, user: UserId, items: seq<RekeyItem>, revisions: map<RowId, Revision>, now: Time, rows: map<RowId, Row>,
      after: Db)
    requires user in db.accounts && |items| == |OpenRows(db, user)|
    requires OpenRows(db, user) <= revisions.Keys && Fresh(db, user, revisions) && rows.Keys == OpenRows(db, user)
    requires forall id | id in rows :: rows[id].revision == revisions[id]
    requires forall i :: 0 <= i < |items| ==>
      items[i].id in rows && ReplacedBy(db.rows[items[i].id], rows[items[i].id], items[i], now)
    requires after.rows == db.rows + rows && after.acks == db.acks
    requires after.accounts == db.accounts[user := NextToken(db.accounts[user])]
    ensures ReplacedEachOnce(db, user, items, now, after)
  {
    assert after.rows.Keys == db.rows.Keys;
    forall id, r: Revision | id in OpenRows(db, user) && Logged(db, user, r) ensures r < after.rows[id].revision {
      assert FreshRevision(db, user, revisions[id]);
    }
  }

  lemma RekeyedRowsReplace(
      db: Db, user: UserId, items: seq<RekeyItem>, revisions: map<RowId, Revision>, now: Time, rows: map<RowId, Row>)
    requires KeysAreIds(db.rows) && RotationMatches(db, user, items)
    requires OpenRows(db, user) <= revisions.Keys && Injective(revisions)
    requires rows == Stamp(RekeyedRows(db, user, items, now), revisions)
    ensures rows.Keys == OpenRows(db, user) && forall id | id in rows :: rows[id].revision == revisions[id]
    ensures forall i :: 0 <= i < |items| ==>
      items[i].id in rows && ReplacedBy(db.rows[items[i].id], rows[items[i].id], items[i], now)
  {
    forall i | 0 <= i < |items|
      ensures items[i].id in rows && ReplacedBy(db.rows[items[i].id], rows[items[i].id], items[i], now)
    {
      RekeyedRow(db, user, items, revisions, now, rows, i);
    }
  }

  /** The effect of a rotation that succeeds. */
  lemma RotationReplacesEachOnce(
      db: Db, user: UserId, items: seq<RekeyItem>, verify: string -> Result<bool>, revisions: map<RowId, Revision>,
      now: Time)
    requires WellFormed(db) && user in db.accounts && RotationMatches(db, user, items)
    requires Authorized(db.accounts[user], verify).Ok?
    requires ValidStep(db, Locked(user, Op.Rotate(items, verify), revisions, now))
    ensures ReplacedEachOnce(db, user, items, now, Next(db, Locked(user, Op.Rotate(items, verify), revisions, now)))
  {
    RotationPlan(db, user, items, verify, now);
    var plan := Plan.Save(RekeyedRows(db, user, items, now), true);
    var op := Op.Rotate(items, verify);
    SavingStep(db, user, op, revisions, now, plan);
    var rows := Stamp(plan.rows, revisions);
    ExactCount(db, user, RekeyIds(items));
    RekeyedRowsReplace(db, user, items, revisions, now, rows);
    RekeyedEachOnce(db, user, items, revisions, now, rows, Execute(db, user, plan, revisions));
  }
}
