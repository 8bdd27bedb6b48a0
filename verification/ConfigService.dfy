/** The sync service: uploads, the asset lifecycle, pulls and acknowledgements. */
module ConfigService {
  import opened Wrappers
  import opened Text
  import opened VectorClock
  import opened ServerConfig
  import opened Database
  import opened Evolution
  import opened Sync
  import opened Store
  import opened Outcomes
  import opened SystemSetting

  function ToLower(s: string): (lower: string)
    ensures |lower| == |s|
    ensures forall i :: 0 <= i < |s| ==>
      lower[i] == if 'A' <= s[i] <= 'Z' then s[i] - 'A' + 'a' else s[i]
  {
    if s == "" then "" else [if 'A' <= s[0] <= 'Z' then s[0] - 'A' + 'a' else s[0]] + ToLower(s[1..])
  }

  predicate ValidHexDigest(s: string) {
    |s| == 64 && forall i :: 0 <= i < 64 ==> '0' <= s[i] <= '9' || 'a' <= s[i] <= 'f'
  }

  /** The request body as it arrives; `Normalize` trims it and rejects what no upload may carry. */
  function Normalize(user: UserId, raw: UploadInput): (r: Result<UploadInput>)
    ensures r.Ok? <==>
      && user != 0 && raw.blob != [] && Parses(raw.clock) && (Blank(raw.asset) || ValidUuid(Trim(raw.asset)))
      && (Blank(raw.fingerprint) || ValidHexDigest(ToLower(Trim(raw.fingerprint))))
    ensures r.Ok? ==> r.value.Valid() && r.value.asset == Trim(raw.asset)
    ensures r.Ok? ==> r.value == raw.(asset := r.value.asset, fingerprint := r.value.fingerprint)
    ensures r.Ok? ==> r.value.fingerprint == ToLower(Trim(raw.fingerprint))
    ensures r.Err? ==> r.error == InvalidInput
  {
    var u := raw.(asset := Trim(raw.asset), fingerprint := ToLower(Trim(raw.fingerprint)));
    if user == 0 || u.blob == [] || !Parses(u.clock) then Err(InvalidInput)
    else if u.asset != "" && !ValidUuid(u.asset) then Err(InvalidInput)
    else if u.fingerprint != "" && !ValidHexDigest(u.fingerprint) then Err(InvalidInput)
    else Ok(u)
  }

  lemma {:induction false} LowerOfLower(s: string)
    ensures ToLower(ToLower(s)) == ToLower(s)
  {
    if s != "" {
      LowerOfLower(s[1..]);
    }
  }

  lemma DigestIsTrimmed(s: string)
    requires ValidHexDigest(s)
    ensures Trim(s) == s
  {
    assert !IsSpace(s[0]) && !IsSpace(s[63]);
    assert TrimLeft(s) == s;
    assert TrimRight(s) == s;
  }

  /** An accepted request is a fixed point: what is stored is compared in the form in which it would be sent again. */
  lemma NormalizedIsFixed(user: UserId, raw: UploadInput)
    requires Normalize(user, raw).Ok?
    ensures Normalize(user, Normalize(user, raw).value) == Normalize(user, raw)
  {
    var u := Normalize(user, raw).value;
    TrimOfTrim(raw.asset);
    LowerOfLower(Trim(raw.fingerprint));
    if u.fingerprint != "" {
      DigestIsTrimmed(u.fingerprint);
    }
  }

  /** One atomic upload addressed by its asset: update the asset's row, or create it. */
  ghost function UploadOp(db: Db, user: UserId, u: UploadInput, newId: RowId): Op {
    if FindByAsset(db, user, u.asset).Some? then Mutate(u.asset, Upload(u)) else Op.Create(newId, u)
  }

  /**
    What a whole call did, as one transaction at one moment inside it. `seen` and `gone` are two more
    moments, for the one answer that has no atomic counterpart.
   */
  datatype Moment = Moment(before: Db, op: Op, after: Db, seen: Db, gone: Db)

  function OneMoment(before: Db, op: Op, after: Db): Moment {
    Moment(before, op, after, before, before)
  }

  ghost predicate Inside(start: Db, m: Moment, end: Db) {
    Evolves(start, m.before) && Evolves(m.after, end)
  }

  /** Inside the call the asset had a row at one moment, and at a later one that row was gone. */
  ghost predicate Vanished(start: Db, m: Moment, end: Db, user: UserId, asset: string) {
    && WellFormed(m.seen) && WellFormed(m.gone)
    && Evolves(start, m.seen) && Evolves(m.seen, m.gone) && Evolves(m.gone, end)
    && FindByAsset(m.seen, user, asset).Some? && FindByAsset(m.gone, user, asset).None?
    && FindByAsset(m.seen, user, asset).value.id !in m.gone.rows
  }

  /**
    The call is the atomic upload of its asset. Two answers without effect have no atomic
    counterpart, and both mean that the asset's row vanished between two of the call's accesses.
   */
  ghost predicate IsAtomicUpload(start: Db, m: Moment, end: Db, user: UserId, u: UploadInput, r: Result<Row>) {
    || (exists newId :: m.op == UploadOp(m.before, user, u, newId))
    || (m.after == m.before && r in {Err(NotFound), Err(DuplicateAsset)} && Vanished(start, m, end, user, u.asset))
  }

  /** The row was live, bound to this asset, and not to another one than the request names. */
  ghost predicate Accepting(db: Db, user: UserId, u: UploadInput, asset: string) {
    && u.HasConfigId() && asset != "" && Holds(db, u.configId.value, user, asset)
    && db.rows[u.configId.value].state == Active && u.asset in {"", asset}
  }

  /** Which row the call's transaction was about. */
  ghost predicate Addressed(start: Db, m: Moment, end: Db, user: UserId, u: UploadInput, r: Result<Row>) {
    if u.HasConfigId() then
      || m.op == UploadById(u.configId.value, u)
      || exists asset :: Accepting(start, user, u, asset) && m.op == Mutate(asset, Request.Upload(u))
    else if u.asset != "" then IsAtomicUpload(start, m, end, user, u, r)
    else exists id :: m.op == Op.Create(id, u)
  }

  /** With nobody else at work the call is this one transaction on the database it found. */
  ghost function AloneOp(db: Db, user: UserId, u: UploadInput, newId: RowId): Op {
    if u.HasConfigId() then UploadById(u.configId.value, u)
    else if u.asset != "" then UploadOp(db, user, u, newId)
    else Op.Create(newId, u)
  }

  ghost predicate IsAlone(before: Db, user: UserId, u: UploadInput, now: Time, after: Db, r: Result<Row>) {
    exists newId :: FreshId(before, newId) && Executed(before, user, AloneOp(before, user, u, newId), now, after, r)
  }

  /** What a call answers and leaves behind when nobody else is at work, spelled out. */
  ghost predicate AloneAnswer(before: Db, user: UserId, u: UploadInput, now: Time, after: Db, r: Result<Row>) {
    if u.HasConfigId() then UploadByIdAnswer(before, user, u.configId.value, u, now, after, r)
    else if u.asset != "" && FindByAsset(before, user, u.asset).Some? then
      UploadAnswer(before, user, u.asset, u, now, after, r)
    else if user !in before.accounts then Outcomes.Refused(before, after, r, UserMissing)
    else Stored(before, user, u, now, after, r)
  }

  /** What the call's one transaction answers and leaves behind, spelled out. */
  ghost predicate MomentAnswer(m: Moment, user: UserId, u: UploadInput, now: Time, r: Result<Row>) {
    match m.op
    case UploadById(id, v) => v == u && UploadByIdAnswer(m.before, user, id, u, now, m.after, r)
    case Mutate(asset, Upload(v)) => v == u && UploadAnswer(m.before, user, asset, u, now, m.after, r)
    case Create(id, v) =>
      && v == u
      && if user !in m.before.accounts then Outcomes.Refused(m.before, m.after, r, UserMissing)
         else if u.asset != "" && FindByAsset(m.before, user, u.asset).Some? then
           Outcomes.Refused(m.before, m.after, r, DuplicateAsset)
         else Stored(m.before, user, u, now, m.after, r)
    case _ => false
  }

  class Service {
    const tables: Tables
    var setting: Option<StoredPolicy>

    constructor (tables: Tables, setting: Option<StoredPolicy>)
      ensures this.tables == tables && this.setting == setting
    {
      this.tables := tables;
      this.setting := setting;
    }

    // -------------------------------------------------------------- the asset lifecycle

    method DeleteAsset(user: UserId, input: AssetMutation, now: Time) returns (r: Result<Row>)
      requires tables.Valid() && Representable(now)
      modifies tables
      ensures tables.Valid()
      ensures user == 0 || !input.Valid() ==> r == Err(InvalidInput) && tables.Value() == old(tables.Value())
      ensures user != 0 && input.Valid() ==>
        Executed(old(tables.Value()), user, Mutate(input.asset, Request.Delete(input, RetentionDays(setting))), now,
                 tables.Value(), r)
      ensures user != 0 && input.Valid() ==>
        DeleteAnswer(old(tables.Value()), user, input, RetentionDays(setting), now, tables.Value(), r)
    {
      ghost var before := tables.Value();
      if user == 0 || !input.Valid() {
        return Err(InvalidInput);
      }
      var policy := GetAssetDeletionPolicy(setting);
      var days := policy.recentDeletedRetentionDays;
      var config, _, _ := tables.MutateByAssetId(user, input.asset, Request.Delete(input, days), now);
      DeleteIsAnswered(before, user, input, days, now, tables.Value(), OrNotFound(config));
      return OrNotFound(config);
    }

    method RestoreAsset(user: UserId, input: AssetMutation, now: Time) returns (r: Result<Row>)
      requires tables.Valid() && Representable(now)
      modifies tables
      ensures tables.Valid()
      ensures user == 0 || !input.Valid() ==> r == Err(InvalidInput) && tables.Value() == old(tables.Value())
      ensures user != 0 && input.Valid() ==>
        Executed(old(tables.Value()), user, Mutate(input.asset, Restore(input)), now, tables.Value(), r)
      ensures user != 0 && input.Valid() ==>
        RestoreAnswer(old(tables.Value()), user, input, now, tables.Value(), r)
    {
      ghost var before := tables.Value();
      if user == 0 || !input.Valid() {
        return Err(InvalidInput);
      }
      var config, _, _ := tables.MutateByAssetId(user, input.asset, Restore(input), now);
      RestoreIsAnswered(before, user, input, now, tables.Value(), OrNotFound(config));
      return OrNotFound(config);
    }

    method PurgeAsset(user: UserId, input: AssetMutation, now: Time) returns (r: Result<Row>)
      requires tables.Valid() && Representable(now)
      modifies tables
      ensures tables.Valid()
      ensures user == 0 || !input.Valid() ==> r == Err(InvalidInput) && tables.Value() == old(tables.Value())
      ensures user != 0 && input.Valid() ==>
        Executed(old(tables.Value()), user, Mutate(input.asset, Purge(input)), now, tables.Value(), r)
      ensures user != 0 && input.Valid() ==>
        PurgeAnswer(old(tables.Value()), user, input, now, tables.Value(), r)
    {
      ghost var before := tables.Value();
      if user == 0 || !input.Valid() {
        return Err(InvalidInput);
      }
      var config, _, _ := tables.MutateByAssetId(user, input.asset, Purge(input), now);
      PurgeIsAnswered(before, user, input, now, tables.Value(), OrNotFound(config));
      return OrNotFound(config);
    }

    /** The numeric-id deletion of legacy clients: physical, and refused for rows bound to an asset. */
    method Delete(user: UserId, id: RowId, now: Time) returns (r: Result<()>)
      requires tables.Valid()
      modifies tables
      ensures tables.Valid()
      ensures user == 0 || id == 0 ==> r == Err(InvalidInput) && tables.Value() == old(tables.Value())
      ensures user != 0 && id != 0 ==>
        LegacyDeleteAnswer(old(tables.Value()), user, id, InvalidState, tables.Value(), r)
      ensures user != 0 && id != 0 ==>
        match PlanOf(old(tables.Value()), user, LegacyDelete(id), now)
        case Drop(_) => r == Ok(()) && tables.Value() == old(tables.Value()).(rows := old(tables.rows) - {id})
        case Refused(e) =>
          && tables.Value() == old(tables.Value())
          && r == Err(if e == LegacyDeleteProtected then InvalidState else e)
        case _ => false
    {
      if user == 0 || id == 0 {
        return Err(InvalidInput);
      }
      r := tables.DeleteByIdAndUserId(id, user);
      if r == Err(LegacyDeleteProtected) {
        r := Err(InvalidState);
      }
    }

    // -------------------------------------------------------------- incremental sync

    /** A pull reads the maximum and the listing separately; writes may be committed in between. */
    method PullChanges(user: UserId, after: Revision, limit: int) returns (r: Result<Page>)
      requires tables.Valid()
      modifies tables
      ensures tables.Valid() && Evolves(old(tables.Value()), tables.Value()) && tables.history == old(tables.history)
      ensures user == 0 ==> r == Err(InvalidInput)
      ensures user != 0 ==> r.Ok?
      ensures user != 0 ==> IsPull(old(tables.Value()), tables.Value(), user, after, limit, r.value)
      ensures user != 0 ==>
        (r.value.resetRequired <==>
           after > 0 && forall id | id in old(tables.rows) && old(tables.rows)[id].user == user ::
             old(tables.rows)[id].revision < after)
      ensures user != 0 && r.value.resetRequired ==> r.value == Page([], 0, false, true)
      ensures user != 0 ==> |r.value.items| <= 500
      ensures user != 0 && limit <= 0 ==> |r.value.items| <= 100
      ensures user != 0 && 1 <= limit <= 500 ==> |r.value.items| <= limit
      ensures user != 0 && r.value.hasMore ==>
        |r.value.items| == if limit <= 0 then 100 else if limit >= 500 then 500 else limit
    {
      ghost var first := tables.Value();
      EvolvesReflexive(first);
      if user == 0 {
        return Err(InvalidInput);
      }
      var bounded := limit;
      if bounded <= 0 {
        bounded := 100;
      }
      if bounded > 500 {
        bounded := 500;
      }
      var maxRevision := tables.MaxRevisionByUserId(user);
      if after > maxRevision {
        ResetAnswered(first, first, user, after, limit, maxRevision);
        return Ok(RESET);
      }
      tables.Interfere(false);
      var page := ListPage(user, after, bounded);
      PageAnswered(first, tables.Value(), user, after, limit, maxRevision, page);
      return Ok(page);
    }

    method ListPage(user: UserId, after: Revision, limit: nat) returns (page: Page)
      requires tables.Valid()
      ensures IsPage(tables.Value(), user, after, limit, page)
    {
      var items, hasMore := tables.ListChangedByUserId(user, after, limit);
      var nextCursor := after;
      if |items| > 0 {
        nextCursor := items[|items| - 1].revision;
      }
      return Page(items, nextCursor, hasMore, false);
    }

    /** The watermark is checked against the maximum first and stored afterwards. */
    method AcknowledgeSync(user: UserId, device: string, revision: Revision, platform: string, clientVersion: string)
      returns (r: Result<()>, ghost before: Db)
      requires tables.Valid()
      modifies tables
      ensures tables.Valid() && Evolves(old(tables.Value()), before)
      ensures r.Err? ==> tables.Value() == before
      ensures r.Ok? <==>
        (&& user != 0 && ValidUuid(Trim(device)) && |Trim(platform)| <= 32 && |Trim(clientVersion)| <= 32
         && exists max :: IsMaxRevision(old(tables.Value()), user, max) && revision <= max)
      ensures r.Ok? ==>
        (&& ValidStep(before, Ack(user, Trim(device), revision))
         && tables.Value() == Next(before, Ack(user, Trim(device), revision)))
      ensures r.Ok? ==> Acknowledged(before, (user, Trim(device)), revision, tables.Value())
      ensures r.Err? ==> r.error == InvalidInput
    {
      before := tables.Value();
      EvolvesReflexive(before);
      if user == 0 || !ValidUuid(Trim(device)) || |Trim(platform)| > 32 || |Trim(clientVersion)| > 32 {
        return Err(InvalidInput), before;
      }
      var maxRevision := tables.MaxRevisionByUserId(user);
      MaxIsUnique(before, user, maxRevision);
      if revision > maxRevision {
        return Err(InvalidInput), before;
      }
      tables.Interfere(false);
      CheckedAckIsValid(before, tables.Value(), user, maxRevision, Trim(device), revision);
      before := tables.Value();
      tables.AcknowledgeDevice(user, Trim(device), revision);
      return Ok(()), before;
    }

    // -------------------------------------------------------------- uploads

    /**
      Upload: an unlocked lookup, then a create that may lose a race, a second lookup, and a locked
      update, with other requests in between unless the call is declared quiet. The whole call amounts
      to one transaction `m` inside it, and an upload addressed by asset is exactly one atomic upload.
     */
    method Upload(user: UserId, raw: UploadInput, now: Time, ghost quiet: bool)
      returns (r: Result<Row>, ghost m: Moment)
      requires tables.Valid() && Representable(now)
      modifies tables
      ensures tables.Valid() && Inside(old(tables.Value()), m, tables.Value())
      ensures Recorded(old(tables.history), tables.history, m.before, m.after)
      ensures Normalize(user, raw).Err? ==> r == Err(InvalidInput) && tables.Value() == old(tables.Value())
      ensures Normalize(user, raw).Err? ==> m.after == m.before
      ensures Normalize(user, raw).Ok? ==>
        && Executed(m.before, user, m.op, now, m.after, r)
        && MomentAnswer(m, user, Normalize(user, raw).value, now, r)
        && Addressed(old(tables.Value()), m, tables.Value(), user, Normalize(user, raw).value, r)
      ensures quiet && Normalize(user, raw).Ok? ==>
        AloneAnswer(old(tables.Value()), user, Normalize(user, raw).value, now, tables.Value(), r)
    {
      ghost var start := tables.Value();
      EvolvesReflexive(start);
      m := OneMoment(start, LegacyDelete(0), start);
      var input := Normalize(user, raw);
      if input.Err? {
        return Err(InvalidInput), m;
      }
      var u := input.value;
      ghost var newId := tables.lastRow + 1;
      UnknownId(start, newId, tables.lastRevision, tables.lastRow);
      if u.HasConfigId() {
        r, m := UploadByConfigId(user, u, now, quiet);
        assert AloneOp(start, user, u, newId) == UploadById(u.configId.value, u);
      } else if u.asset != "" {
        r, m := UploadByAsset(user, u, now, quiet);
      } else {
        r, m := CreateUpload(user, u, now, quiet);
      }
      MomentIsAnswered(m, user, u, now, r);
      if quiet {
        AloneIsAnswered(start, user, u, now, tables.Value(), r);
      }
    }

    method UploadByAsset(user: UserId, u: UploadInput, now: Time, ghost quiet: bool)
      returns (r: Result<Row>, ghost m: Moment)
      requires tables.Valid() && u.Valid() && u.asset != "" && !u.HasConfigId() && Representable(now)
      modifies tables
      ensures tables.Valid() && Inside(old(tables.Value()), m, tables.Value())
      ensures Recorded(old(tables.history), tables.history, m.before, m.after)
      ensures WellFormed(m.before) && IsUploadOp(m.op, u)
      ensures Executed(m.before, user, m.op, now, m.after, r)
      ensures IsAtomicUpload(old(tables.Value()), m, tables.Value(), user, u, r)
      ensures quiet ==> IsAlone(old(tables.Value()), user, u, now, tables.Value(), r)
    {
      ghost var start := tables.Value();
      UnknownId(start, tables.lastRow + 1, tables.lastRevision, tables.lastRow);
      var existing := tables.FindByAssetIdAndUserId(u.asset, user);
      if existing.Some? {
        r, m := UpdateExisting(user, existing.value, u, now, quiet);
        return;
      }
      r, m := CreateUpload(user, u, now, quiet);
      CreateMissesAsset(m.before, user, u, now, m.op, m.after, r);
      if r.Err? {
        ghost var created := m;
        EvolvesReflexive(start);
        r, m := AfterLostRace(user, u, now, r, m, start, quiet);
      }
    }

    /** The loser of a create race reads the winner's row and goes through the same clock comparison. */
    method AfterLostRace(
        user: UserId, u: UploadInput, now: Time, createErr: Result<Row>, ghost created: Moment, ghost start: Db,
        ghost quiet: bool)
      returns (r: Result<Row>, ghost m: Moment)
      requires tables.Valid() && u.Valid() && u.asset != "" && Representable(now) && WellFormed(start)
      requires WellFormed(created.before) && created.after == created.before
      requires Evolves(start, created.before) && Evolves(created.before, tables.Value())
      requires Executed(created.before, user, created.op, now, created.after, createErr)
      requires IsCreateAnswer(created, user, u, createErr)
      requires quiet ==> tables.Value() == created.before == start && FindByAsset(start, user, u.asset).None?
      modifies tables
      ensures tables.Valid() && Inside(start, m, tables.Value())
      ensures Recorded(old(tables.history), tables.history, m.before, m.after)
      ensures WellFormed(m.before) && IsUploadOp(m.op, u)
      ensures Executed(m.before, user, m.op, now, m.after, r) && IsAtomicUpload(start, m, tables.Value(), user, u, r)
      ensures quiet ==> m == created && r == createErr && tables.Value() == start
    {
      ghost var before := tables.Value();
      tables.Interfere(quiet);
      EvolvesTransitive(created.before, before, tables.Value());
      var winner := tables.FindByAssetIdAndUserId(u.asset, user);
      if winner.None? {
        EvolvesReflexive(tables.Value());
        m := created.(seen := created.before, gone := tables.Value());
        if FindByAsset(created.before, user, u.asset).Some? {
          HolderVanished(created.before, tables.Value(), user, u.asset);
        } else {
          CreateIsUpload(created, user, u, createErr);
          m := created;
        }
        return createErr, m;
      }
      ghost var middle := tables.Value();
      r, m := UpdateExisting(user, winner.value, u, now, quiet);
      EvolvesTransitive(start, created.before, middle);
      AtomicFromLater(start, middle, m, tables.Value(), user, u, r);
    }

    /** A first upload of a legacy client, which names neither a row nor an asset. */
    method CreateUpload(user: UserId, u: UploadInput, now: Time, ghost quiet: bool)
      returns (r: Result<Row>, ghost m: Moment)
      requires tables.Valid() && u.Valid() && Representable(now)
      modifies tables
      ensures tables.Valid() && Inside(old(tables.Value()), m, tables.Value()) && m.after == tables.Value()
      ensures Recorded(old(tables.history), tables.history, m.before, m.after)
      ensures WellFormed(m.before) && (quiet ==> m.before == old(tables.Value()))
      ensures Executed(m.before, user, m.op, now, m.after, r)
      ensures exists id :: FreshId(m.before, id) && m.op == Op.Create(id, u)
    {
      tables.Interfere(quiet);
      ghost var before := tables.Value();
      ghost var id;
      r, id := tables.Create(user, u, now);
      m := OneMoment(before, Op.Create(id, u), tables.Value());
      EvolvesReflexive(tables.Value());
    }

    /**
      An upload addressed by row id. A row bound to an asset is updated under the lock; a legacy row
      is compared and saved as it was read, which is sound only while nobody else writes it, so no
      interference is admitted on that path.
     */
    method UploadByConfigId(user: UserId, u: UploadInput, now: Time, ghost quiet: bool)
      returns (r: Result<Row>, ghost m: Moment)
      requires tables.Valid() && u.Valid() && u.HasConfigId() && Representable(now)
      modifies tables
      ensures tables.Valid() && Inside(old(tables.Value()), m, tables.Value())
      ensures Recorded(old(tables.history), tables.history, m.before, m.after)
      ensures WellFormed(m.before) && IsUploadOp(m.op, u)
      ensures Executed(m.before, user, m.op, now, m.after, r)
      ensures Addressed(old(tables.Value()), m, tables.Value(), user, u, r)
      ensures quiet ==> Executed(old(tables.Value()), user, UploadById(u.configId.value, u), now, tables.Value(), r)
    {
      ghost var start := tables.Value();
      ghost var op := UploadById(u.configId.value, u);
      EvolvesReflexive(start);
      m := OneMoment(start, op, start);
      var found := tables.FindByIdAndUserId(u.configId.value, user);
      if found.None? {
        return Err(NotFound), m;
      }
      var existing := found.value;
      if existing.IsDeleted() {
        return Err(InvalidState), m;
      }
      if u.asset != "" && existing.asset != "" && existing.asset != u.asset {
        return Err(InvalidInput), m;
      }
      if existing.asset != "" {
        assert Accepting(start, user, u, existing.asset);
        r, m := UpdateAssetBound(user, existing.asset, u, now, quiet);
        if quiet {
          BoundExecutes(start, user, u, existing.asset, now, tables.Value(), r);
        }
        return;
      }
      r := UploadLegacy(user, existing, u, now);
      m := OneMoment(start, op, tables.Value());
      EvolvesReflexive(tables.Value());
    }

    /** The part of the call about a row not bound to an asset. */
    method UploadLegacy(user: UserId, existing: Row, u: UploadInput, now: Time) returns (r: Result<Row>)
      requires tables.Valid() && u.Valid() && Representable(now)
      requires Holds(tables.Value(), existing.id, user, "") && tables.rows[existing.id] == existing
      requires u.HasConfigId() && u.configId.value == existing.id
      modifies tables
      ensures tables.Valid() && Evolves(old(tables.Value()), tables.Value())
      ensures Executed(old(tables.Value()), user, UploadById(existing.id, u), now, tables.Value(), r)
      ensures Recorded(old(tables.history), tables.history, old(tables.Value()), tables.Value())
    {
      EvolvesReflexive(tables.Value());
      if u.asset != "" {
        var bound := tables.FindByAssetIdAndUserId(u.asset, user);
        if bound.Some? {
          return Err(VectorClockConflict);
        }
      }
      r := UpdateLegacy(user, existing, u, now);
    }

    method UpdateLegacy(user: UserId, existing: Row, u: UploadInput, now: Time) returns (r: Result<Row>)
      requires tables.Valid() && u.Valid() && Representable(now)
      requires Holds(tables.Value(), existing.id, user, "") && tables.rows[existing.id] == existing
      requires u.HasConfigId() && u.configId.value == existing.id
      requires u.asset != "" ==> FindByAsset(tables.Value(), user, u.asset).None?
      modifies tables
      ensures tables.Valid() && Executed(old(tables.Value()), user, UploadById(existing.id, u), now, tables.Value(), r)
      ensures Evolves(old(tables.Value()), tables.Value())
      ensures Recorded(old(tables.history), tables.history, old(tables.Value()), tables.Value())
    {
      EvolvesReflexive(tables.Value());
      ghost var before, revision := tables.Value(), tables.lastRevision + 1;
      LegacyExecutes(before, user, existing, u, now, revision);
      var relation := CompareVectorClock(u.clock, existing.clock);
      if relation.Err? {
        return Err(InvalidInput);
      }
      if relation.value == Older || relation.value == Conflict {
        return Err(VectorClockConflict);
      }
      if relation.value == Equal {
        if existing.blob == u.blob {
          return Ok(existing);
        }
        return Err(VectorClockConflict);
      }
      var row := existing.(asset := u.asset);
      if u.fingerprint != "" {
        row := row.(fingerprint := u.fingerprint);
      }
      row := row.(blob := u.blob, clock := u.clock, state := Active);
      ghost var target := row.(updatedAt := now, revision := revision);
      assert DecideLegacy(existing, u) == Write(row);
      KnownId(before, row.id, tables.lastRevision, tables.lastRow);
      var saved := tables.Commit(row, now, target, Saved(before, target));
      return Ok(saved);
    }

    /** The rest of an upload whose asset was found bound to `existing` a moment ago. */
    method UpdateExisting(user: UserId, existing: Row, u: UploadInput, now: Time, ghost quiet: bool)
      returns (r: Result<Row>, ghost m: Moment)
      requires tables.Valid() && u.Valid() && u.asset != "" && Representable(now)
      requires FindByAsset(tables.Value(), user, u.asset) == Some(existing)
      modifies tables
      ensures tables.Valid() && Inside(old(tables.Value()), m, tables.Value())
      ensures Recorded(old(tables.history), tables.history, m.before, m.after)
      ensures WellFormed(m.before) && IsUploadOp(m.op, u)
      ensures Executed(m.before, user, m.op, now, m.after, r)
      ensures IsAtomicUpload(old(tables.Value()), m, tables.Value(), user, u, r)
      ensures quiet ==>
        m.before == old(tables.Value()) && m.after == tables.Value() && m.op == Mutate(u.asset, Request.Upload(u))
    {
      ghost var start := tables.Value();
      EvolvesReflexive(start);
      AssetLookup(start, user, u.asset);
      if existing.IsDeleted() {
        r, m := Err(InvalidState), OneMoment(start, Mutate(u.asset, Request.Upload(u)), start);
      } else {
        r, m := UpdateAssetBound(user, existing.asset, u, now, quiet);
        if FindByAsset(m.before, user, u.asset).None? {
          EvolvesReflexive(m.before);
          HolderVanished(start, m.before, user, u.asset);
          m := m.(seen := start, gone := m.before);
        }
      }
      assert FindByAsset(m.before, user, u.asset).Some? ==> m.op == UploadOp(m.before, user, u, 0);
    }

    /** The locked update of an asset; other requests may run before it takes the lock. */
    method UpdateAssetBound(user: UserId, asset: string, u: UploadInput, now: Time, ghost quiet: bool)
      returns (r: Result<Row>, ghost m: Moment)
      requires tables.Valid() && u.Valid() && asset != "" && Representable(now)
      modifies tables
      ensures tables.Valid() && Inside(old(tables.Value()), m, tables.Value()) && WellFormed(m.before)
      ensures m == OneMoment(m.before, Mutate(asset, Request.Upload(u)), tables.Value())
      ensures Recorded(old(tables.history), tables.history, m.before, m.after)
      ensures Executed(m.before, user, m.op, now, m.after, r)
      ensures user in old(tables.accounts) && FindByAsset(m.before, user, asset).None? ==>
        r == Err(NotFound) && m.after == m.before
      ensures quiet ==> m.before == old(tables.Value())
    {
      tables.Interfere(quiet);
      ghost var before := tables.Value();
      var updated, _, _ := tables.MutateByAssetId(user, asset, Request.Upload(u), now);
      m := OneMoment(before, Mutate(asset, Request.Upload(u)), tables.Value());
      EvolvesReflexive(tables.Value());
      return OrNotFound(updated), m;
    }
  }

  /** A create that was refused as a duplicate found the asset's row; any other is the atomic upload. */
  ghost predicate IsCreateAnswer(m: Moment, user: UserId, u: UploadInput, r: Result<Row>) {
    && (exists id :: m.op == Op.Create(id, u))
    && (FindByAsset(m.before, user, u.asset).Some? ==> r == Err(DuplicateAsset) && m.after == m.before)
    && (r.Err? ==> m.after == m.before)
  }

  lemma CreateIsUpload(m: Moment, user: UserId, u: UploadInput, r: Result<Row>)
    requires IsCreateAnswer(m, user, u, r) && FindByAsset(m.before, user, u.asset).None?
    ensures exists newId :: m.op == UploadOp(m.before, user, u, newId)
  {
    var id :| m.op == Op.Create(id, u);
    assert m.op == UploadOp(m.before, user, u, id);
  }

  /** A row that was found by its asset, and is not found any more, is gone. */
  lemma HolderVanished(was: Db, now: Db, user: UserId, asset: string)
    requires WellFormed(was) && WellFormed(now) && Evolves(was, now) && asset != ""
    requires FindByAsset(was, user, asset).Some? && FindByAsset(now, user, asset).None?
    ensures FindByAsset(was, user, asset).value.id !in now.rows
  {
    AssetLookup(was, user, asset);
    var row := FindByAsset(was, user, asset).value;
    if row.id in now.rows {
      assert RowEvolves(was.rows[row.id], now.rows[row.id]);
      assert Holds(now, row.id, user, asset);
    }
  }

  /** What began later inside the call began inside the call. */
  lemma AtomicFromLater(
      start: Db, middle: Db, m: Moment, end: Db, user: UserId, u: UploadInput, r: Result<Row>)
    requires WellFormed(start) && Evolves(start, middle) && Inside(middle, m, end)
    requires IsAtomicUpload(middle, m, end, user, u, r)
    ensures Inside(start, m, end) && IsAtomicUpload(start, m, end, user, u, r)
  {
    EvolvesTransitive(start, middle, m.before);
    if Evolves(middle, m.seen) {
      EvolvesTransitive(start, middle, m.seen);
    }
  }

  lemma FirstPlan(db: Db, user: UserId, u: UploadInput, id: RowId, now: Time)
    requires user in db.accounts && (u.asset == "" || FindByAsset(db, user, u.asset).None?)
    ensures PlanOf(db, user, Op.Create(id, u), now) == Plan.Save(map[id := NewRow(user, id, u, now)], false)
  {
  }

  lemma SavedIsStored(before: Db, user: UserId, u: UploadInput, id: RowId, now: Time, row: Row)
    requires row == NewRow(user, id, u, now).(revision := row.revision) && id !in before.rows
    requires FreshRevision(before, user, row.revision)
    ensures Stored(before, user, u, now, Saved(before, row), Ok(row))
  {
    SavedIsWrote(before, row);
  }

  lemma CreatedIdIsFresh(before: Db, user: UserId, u: UploadInput, id: RowId, now: Time, after: Db, r: Result<Row>)
    requires PlanOf(before, user, Op.Create(id, u), now).Save?
    requires Executed(before, user, Op.Create(id, u), now, after, r)
    ensures FreshId(before, id)
  {
  }

  lemma CreatedIsStored(before: Db, user: UserId, u: UploadInput, id: RowId, now: Time, after: Db, r: Result<Row>)
    requires user in before.accounts && (u.asset == "" || FindByAsset(before, user, u.asset).None?)
    requires Executed(before, user, Op.Create(id, u), now, after, r)
    ensures Stored(before, user, u, now, after, r)
  {
    FirstPlan(before, user, u, id, now);
    var row := NewRow(user, id, u, now);
    CreatedIdIsFresh(before, user, u, id, now, after, r);
    OneRowExecuted(before, user, Op.Create(id, u), now, after, r, row);
    SavedIsStored(before, user, u, id, now, r.value);
  }

  lemma AloneIsAnswered(before: Db, user: UserId, u: UploadInput, now: Time, after: Db, r: Result<Row>)
    requires WellFormed(before) && u.Valid() && Representable(now) && IsAlone(before, user, u, now, after, r)
    ensures AloneAnswer(before, user, u, now, after, r)
  {
    var id :| FreshId(before, id) && Executed(before, user, AloneOp(before, user, u, id), now, after, r);
    if u.HasConfigId() {
      UploadByIdIsAnswered(before, user, u.configId.value, u, now, after, r);
    } else if u.asset != "" && FindByAsset(before, user, u.asset).Some? {
      UploadIsAnswered(before, user, u.asset, u, now, after, r);
    } else if user in before.accounts {
      CreatedIsStored(before, user, u, id, now, after, r);
    } else {
      assert AloneOp(before, user, u, id) == Op.Create(id, u);
    }
  }

  ghost predicate IsUploadOp(op: Op, u: UploadInput) {
    || (op.UploadById? && op.input == u)
    || (op.Mutate? && op.asset != "" && op.request == Request.Upload(u))
    || (op.Create? && op.input == u)
  }

  lemma MomentIsAnswered(m: Moment, user: UserId, u: UploadInput, now: Time, r: Result<Row>)
    requires WellFormed(m.before) && u.Valid() && Representable(now) && IsUploadOp(m.op, u)
    requires Executed(m.before, user, m.op, now, m.after, r)
    ensures MomentAnswer(m, user, u, now, r)
  {
    match m.op
    case UploadById(id, v) => UploadByIdIsAnswered(m.before, user, id, u, now, m.after, r);
    case Mutate(asset, request) => UploadIsAnswered(m.before, user, asset, u, now, m.after, r);
    case Create(id, v) =>
      if user in m.before.accounts && (u.asset == "" || FindByAsset(m.before, user, u.asset).None?) {
        FirstPlan(m.before, user, u, id, now);
        CreatedIsStored(m.before, user, u, id, now, m.after, r);
      }
    case _ =>
  }

  /** For a live row bound to its asset, the two ways to address it are the same transaction. */
  lemma BoundPlans(db: Db, user: UserId, u: UploadInput, asset: string, now: Time)
    requires WellFormed(db) && Accepting(db, user, u, asset)
    ensures PlanOf(db, user, UploadById(u.configId.value, u), now) ==
      PlanOf(db, user, Mutate(asset, Request.Upload(u)), now)
  {
    AssetLookup(db, user, asset);
  }

  lemma BoundExecutes(db: Db, user: UserId, u: UploadInput, asset: string, now: Time, after: Db, r: Result<Row>)
    requires WellFormed(db) && u.Valid() && Accepting(db, user, u, asset) && Representable(now)
    requires Executed(db, user, Mutate(asset, Request.Upload(u)), now, after, r)
    ensures Executed(db, user, UploadById(u.configId.value, u), now, after, r)
  {
    BoundPlans(db, user, u, asset, now);
    SamePlanExecutes(db, user, Mutate(asset, Request.Upload(u)), UploadById(u.configId.value, u), now, after, r);
  }

  lemma LegacyExecutes(db: Db, user: UserId, row: Row, u: UploadInput, now: Time, revision: Revision)
    requires WellFormed(db) && u.Valid() && Representable(now)
    requires Holds(db, row.id, user, "") && db.rows[row.id] == row
    requires u.asset != "" ==> FindByAsset(db, user, u.asset).None?
    requires revision > 0 && forall r | r in db.log :: r < revision
    ensures match DecideLegacy(row, u)
      case Refuse(e) => Executed(db, user, UploadById(row.id, u), now, db, Err(e))
      case Keep => Executed(db, user, UploadById(row.id, u), now, db, Ok(row))
      case Write(next) =>
        var target := next.(updatedAt := now, revision := revision);
        && WellFormed(Saved(db, target)) && Evolves(db, Saved(db, target))
        && Executed(db, user, UploadById(row.id, u), now, Saved(db, target), Ok(target))
  {
    if DecideLegacy(row, u).Write? {
      var next := DecideLegacy(row, u).row.(updatedAt := now);
      var step := OneRowCommit(db, user, UploadById(row.id, u), now, next, revision);
    }
  }

  lemma MaxIsUnique(db: Db, user: UserId, max: Revision)
    requires IsMaxRevision(db, user, max)
    ensures forall other :: IsMaxRevision(db, user, other) ==> other == max
  {
  }

  lemma CreateMissesAsset(db: Db, user: UserId, u: UploadInput, now: Time, op: Op, after: Db, r: Result<Row>)
    requires WellFormed(db) && u.asset != "" && (exists id :: op == Op.Create(id, u))
    requires Executed(db, user, op, now, after, r)
    ensures IsCreateAnswer(OneMoment(db, op, after), user, u, r)
    ensures FindByAsset(db, user, u.asset).None? ==> exists id :: op == UploadOp(db, user, u, id)
  {
    var id :| op == Op.Create(id, u);
    AssetLookup(db, user, u.asset);
    if FindByAsset(db, user, u.asset).None? {
      assert op == UploadOp(db, user, u, id);
    }
  }

  /**
    Two first uploads of one asset race. Whatever runs after the winner's commit, as long as its row is
    there, the loser's create is refused, and the winner's row is the only one of the asset.
   */
  lemma RacingUploadsLeaveOneRow(
      db: Db, user: UserId, id: RowId, winner: UploadInput, revisions: map<RowId, Revision>, now: Time, rest: seq<Step>,
      later: Db, loserId: RowId, loser: UploadInput, time: Time)
    requires WellFormed(db) && winner.asset != "" && loser.asset == winner.asset
    requires ValidStep(db, Locked(user, Op.Create(id, winner), revisions, now))
    requires PlanOf(db, user, Op.Create(id, winner), now).Save?
    requires ValidRun(Next(db, Locked(user, Op.Create(id, winner), revisions, now)), rest)
    requires later == After(Next(db, Locked(user, Op.Create(id, winner), revisions, now)), rest) && id in later.rows
    ensures forall other :: Holds(later, other, user, winner.asset) <==> other == id
    ensures PlanOf(later, user, Op.Create(loserId, loser), time) == Refused(DuplicateAsset)
  {
    var created := Next(db, Locked(user, Op.Create(id, winner), revisions, now));
    StepIsLawful(db, Locked(user, Op.Create(id, winner), revisions, now));
    RunIsLawful(created, rest);
    assert Holds(created, id, user, winner.asset);
    HolderStays(created, later, id, user, winner.asset);
  }

  lemma HolderStays(was: Db, now: Db, id: RowId, user: UserId, asset: string)
    requires WellFormed(was) && WellFormed(now) && Evolves(was, now) && asset != ""
    requires Holds(was, id, user, asset) && id in now.rows
    ensures user in now.accounts && FindByAsset(now, user, asset).Some?
    ensures forall other :: Holds(now, other, user, asset) <==> other == id
  {
    assert Holds(now, id, user, asset);
  }
}
