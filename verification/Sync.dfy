/** Incremental pulls by cursor: what a page is, and why a client that follows the protocol converges. */
module Sync {
  import opened ServerConfig
  import opened Database
  import opened Evolution
  import opened Selection

  /** `COALESCE(MAX(server_revision), 0)` over the live rows of an account. */
  ghost predicate IsMaxRevision(db: Db, user: UserId, max: Revision) {
    && (forall id | id in db.rows && db.rows[id].user == user :: db.rows[id].revision <= max)
    && (max == 0 || exists id :: id in db.rows && db.rows[id].user == user && db.rows[id].revision == max)
  }

  predicate ChangedAfter(row: Row, user: UserId, after: Revision) {
    row.user == user && row.revision > after
  }

  /** `WHERE user_id = ? AND server_revision > ? ORDER BY server_revision LIMIT ?` */
  ghost predicate IsListing(db: Db, user: UserId, after: Revision, limit: nat, items: seq<Row>) {
    IsSelection(db.rows, (row: Row) => ChangedAfter(row, user, after), (row: Row) => row.revision, limit, items)
  }

  datatype Page = Page(items: seq<Row>, nextCursor: Revision, hasMore: bool, resetRequired: bool)

  const RESET := Page([], 0, false, true)

  /** The page a pull answers from the database it lists. */
  ghost predicate IsPage(db: Db, user: UserId, after: Revision, limit: nat, page: Page) {
    && !page.resetRequired
    && IsListing(db, user, after, limit, page.items)
    && page.nextCursor == (if page.items == [] then after else page.items[|page.items| - 1].revision)
    && (page.hasMore <==>
          exists id :: id in db.rows && ChangedAfter(db.rows[id], user, after) && !Contains(page.items, id))
  }

  /** A pull compares the cursor with the maximum it reads first, and lists from what it sees afterwards. */
  ghost predicate IsPull(first: Db, second: Db, user: UserId, after: Revision, limit: int, page: Page) {
    exists max :: (IsMaxRevision(first, user, max)
      && if after > max then page == RESET else IsPage(second, user, after, ClampLimit(limit), page))
  }

  /** The answer of a pull is the check and the listing of the client's protocol, on the two databases it read. */
  lemma PullIsClientSteps(first: Db, second: Db, user: UserId, replica: Replica, limit: int, page: Page)
    requires IsPull(first, second, user, replica.cursor, limit, page)
    ensures if page.resetRequired then
        ClientStep(user, Session(first, replica, Idle), Session(first, replica, Listed(page, 0, first)))
      else
        && ClientStep(user, Session(first, replica, Idle), Session(first, replica, Checked))
        && ClientStep(user, Session(second, replica, Checked),
                      Session(second, replica, Listed(page, ClampLimit(limit), second)))
  {
  }

  lemma ResetAnswered(first: Db, second: Db, user: UserId, after: Revision, limit: int, max: Revision)
    requires IsMaxRevision(first, user, max) && after > max
    ensures IsPull(first, second, user, after, limit, RESET)
  {
  }

  lemma PageAnswered(first: Db, second: Db, user: UserId, after: Revision, limit: int, max: Revision, page: Page)
    requires IsMaxRevision(first, user, max) && after <= max && IsPage(second, user, after, ClampLimit(limit), page)
    ensures IsPull(first, second, user, after, limit, page)
  {
  }

  function ClampLimit(limit: int): nat {
    if limit <= 0 then 100 else if limit > 500 then 500 else limit
  }

  // ---------------------------------------------------------------- the client

  datatype Replica = Replica(copy: map<RowId, Row>, cursor: Revision)

  /** Apply the snapshots in order, then persist the cursor; a reset restarts at zero. */
  function Apply(replica: Replica, page: Page): Replica {
    if page.resetRequired then replica.(cursor := 0)
    else Replica(replica.copy + ItemsById(page.items), page.nextCursor)
  }

  datatype Phase =
    | Idle
    | Checked                                  // the cursor passed the maximum check
    | Listed(page: Page, limit: nat, at: Db)   // a page is on its way, listed from `at`

  datatype Session = Session(db: Db, replica: Replica, phase: Phase)

  /** One step of the client's pull: check the cursor, list a page, or take delivery of it. */
  ghost predicate ClientStep(user: UserId, s: Session, t: Session) {
    || (exists max :: IsMaxRevision(s.db, user, max) && s.phase.Idle? &&
          t == s.(phase := if s.replica.cursor > max then Listed(RESET, 0, s.db) else Checked))
    || (s.phase.Checked? && t.phase.Listed? && t == s.(phase := t.phase) && t.phase.limit > 0
        && IsPage(s.db, user, s.replica.cursor, t.phase.limit, t.phase.page) && t.phase.at == s.db)
    || (s.phase.Listed? && t == s.(phase := Idle, replica := Apply(s.replica, s.phase.page)))
  }

  /** One step of the whole system: server activity of any length, or one step of the client. */
  ghost predicate SessionStep(user: UserId, s: Session, t: Session) {
    || (exists steps :: ValidRun(s.db, steps) && t == s.(db := After(s.db, steps)))
    || ClientStep(user, s, t)
  }

  ghost predicate IsRun(user: UserId, run: seq<Session>) {
    forall i :: 0 <= i < |run| - 1 ==> SessionStep(user, run[i], run[i + 1])
  }

  ghost predicate CursorKnown(db: Db, user: UserId, cursor: Revision) {
    cursor == 0 || exists r: Revision :: Logged(db, user, r) && r >= cursor
  }

  /** Every live row at or below the cursor is mirrored exactly. */
  ghost predicate InSync(db: Db, user: UserId, replica: Replica) {
    && CursorKnown(db, user, replica.cursor)
    && forall id | id in db.rows && db.rows[id].user == user && db.rows[id].revision <= replica.cursor ::
         id in replica.copy && replica.copy[id] == db.rows[id]
  }

  ghost predicate SessionInv(user: UserId, s: Session) {
    && WellFormed(s.db) && InSync(s.db, user, s.replica)
    && (s.phase.Listed? ==>
          && WellFormed(s.phase.at) && Evolves(s.phase.at, s.db)
          && (s.phase.page == RESET ||
              (s.phase.limit > 0 && IsPage(s.phase.at, user, s.replica.cursor, s.phase.limit, s.phase.page)
               && CursorKnown(s.phase.at, user, s.replica.cursor))))
  }

  /** No cursor gap: whatever is committed later lies above every revision already committed. */
  lemma KnownBoundsOldRows(was: Db, now: Db, user: UserId, cursor: Revision, id: RowId)
    requires WellFormed(was) && WellFormed(now) && Evolves(was, now) && CursorKnown(was, user, cursor)
    requires id in now.rows && now.rows[id].user == user && now.rows[id].revision <= cursor
    ensures id in was.rows && was.rows[id] == now.rows[id]
  {
    assert Indexed(now, id);
    var revision := now.rows[id].revision;
    var r: Revision :| Logged(was, user, r) && r >= cursor;
    assert revision in was.log && was.log[revision].config == id;
    if id in was.rows {
      assert RowEvolves(was.rows[id], now.rows[id]) && Indexed(was, id);
    }
  }

  lemma KnownCursorStaysKnown(was: Db, now: Db, user: UserId, cursor: Revision)
    requires LogGrows(was, now) && CursorKnown(was, user, cursor)
    ensures CursorKnown(now, user, cursor)
  {
    if cursor != 0 {
      var r: Revision :| Logged(was, user, r) && r >= cursor;
      assert Logged(now, user, r);
    }
  }

  lemma ServerKeepsSync(was: Db, now: Db, user: UserId, replica: Replica)
    requires WellFormed(was) && WellFormed(now) && Evolves(was, now) && InSync(was, user, replica)
    ensures InSync(now, user, replica)
  {
    KnownCursorStaysKnown(was, now, user, replica.cursor);
    forall id | id in now.rows && now.rows[id].user == user && now.rows[id].revision <= replica.cursor
      ensures id in replica.copy && replica.copy[id] == now.rows[id]
    {
      KnownBoundsOldRows(was, now, user, replica.cursor, id);
    }
  }

  lemma NextCursorKnown(db: Db, user: UserId, after: Revision, limit: nat, page: Page)
    requires WellFormed(db) && IsPage(db, user, after, limit, page) && CursorKnown(db, user, after)
    ensures CursorKnown(db, user, page.nextCursor)
  {
    if page.items != [] {
      var last := page.items[|page.items| - 1];
      assert Indexed(db, last.id);
      assert Logged(db, user, last.revision);
    }
  }

  /** Everything up to the page's cursor is either below the old cursor or in the page. */
  lemma PageCovers(db: Db, user: UserId, after: Revision, limit: nat, page: Page, id: RowId)
    requires WellFormed(db) && IsPage(db, user, after, limit, page) && limit > 0
    requires id in db.rows && ChangedAfter(db.rows[id], user, after) && db.rows[id].revision <= page.nextCursor
    ensures Contains(page.items, id)
  {
    assert Indexed(db, id);
    if page.items != [] {
      assert Indexed(db, page.items[|page.items| - 1].id);
    }
  }

  /** Delivering a page, however late, keeps the replica in sync up to the new cursor. */
  lemma DeliveryKeepsSync(at: Db, now: Db, user: UserId, replica: Replica, limit: nat, page: Page)
    requires WellFormed(at) && WellFormed(now) && Evolves(at, now) && InSync(now, user, replica)
    requires limit > 0 && IsPage(at, user, replica.cursor, limit, page) && CursorKnown(at, user, replica.cursor)
    ensures InSync(now, user, Apply(replica, page))
  {
    NextCursorKnown(at, user, replica.cursor, limit, page);
    KnownCursorStaysKnown(at, now, user, page.nextCursor);
    ItemsByIdContains(page.items);
    forall id | id in now.rows && now.rows[id].user == user && now.rows[id].revision <= page.nextCursor
      ensures id in Apply(replica, page).copy && Apply(replica, page).copy[id] == now.rows[id]
    {
      KnownBoundsOldRows(at, now, user, page.nextCursor, id);
      if now.rows[id].revision > replica.cursor {
        PageCovers(at, user, replica.cursor, limit, page, id);
      }
    }
  }

  lemma SessionStepKeepsInv(user: UserId, s: Session, t: Session)
    requires SessionInv(user, s) && SessionStep(user, s, t)
    ensures SessionInv(user, t)
  {
    if steps :| ValidRun(s.db, steps) && t == s.(db := After(s.db, steps)) {
      RunIsLawful(s.db, steps);
      ServerKeepsSync(s.db, t.db, user, s.replica);
      if s.phase.Listed? {
        EvolvesTransitive(s.phase.at, s.db, t.db);
      }
    } else if s.phase.Listed? {
      if s.phase.page == RESET {
        ResetIsInSync(s.db, user, s.replica);
      } else {
        DeliveryKeepsSync(s.phase.at, s.db, user, s.replica, s.phase.limit, s.phase.page);
      }
    } else {
      EvolvesReflexive(s.db);
    }
  }

  lemma ResetIsInSync(db: Db, user: UserId, replica: Replica)
    requires WellFormed(db)
    ensures InSync(db, user, replica.(cursor := 0))
  {
    forall id | id in db.rows ensures db.rows[id].revision > 0 {
      assert Indexed(db, id);
    }
  }

  /**
    Replica correctness: a client that starts at cursor zero mirrors, at every moment of every
    interleaving with the server, each live row at or below its cursor.
   */
  lemma {:induction false} ReplicaStaysInSync(user: UserId, run: seq<Session>, n: nat)
    requires IsRun(user, run) && n < |run|
    requires WellFormed(run[0].db) && run[0].phase.Idle? && run[0].replica.cursor == 0
    ensures SessionInv(user, run[n])
    ensures InSync(run[n].db, user, run[n].replica)
  {
    if n == 0 {
      ResetIsInSync(run[0].db, user, run[0].replica);
    } else {
      ReplicaStaysInSync(user, run, n - 1);
      SessionStepKeepsInv(user, run[n - 1], run[n]);
    }
  }

  lemma DeliveryIsOnlyStep(user: UserId, s: Session, t: Session)
    requires SessionStep(user, s, t) && s.phase.Listed? && t.phase.Idle?
    ensures t == s.(phase := Idle, replica := Apply(s.replica, s.phase.page))
  {
  }

  lemma FullPageAgrees(at: Db, now: Db, user: UserId, replica: Replica, limit: nat, page: Page, id: RowId)
    requires InSync(now, user, replica) && IsPage(at, user, replica.cursor, limit, page) && !page.hasMore
    requires at.rows == now.rows && id in now.rows && now.rows[id].user == user
    ensures id in Apply(replica, page).copy && Apply(replica, page).copy[id] == now.rows[id]
  {
    ItemsByIdContains(page.items);
    if now.rows[id].revision > replica.cursor {
      assert Contains(page.items, id);
    }
  }

  /** After a last page, with no write since it was listed, the client agrees on every live row. */
  lemma LastPageAgrees(user: UserId, run: seq<Session>, n: nat, id: RowId)
    requires IsRun(user, run) && n + 1 < |run|
    requires WellFormed(run[0].db) && run[0].phase.Idle? && run[0].replica.cursor == 0
    requires run[n].phase.Listed? && run[n + 1].phase.Idle?
    requires !run[n].phase.page.resetRequired && !run[n].phase.page.hasMore
    requires run[n].phase.at.rows == run[n].db.rows
    requires id in run[n + 1].db.rows && run[n + 1].db.rows[id].user == user
    ensures id in run[n + 1].replica.copy && run[n + 1].replica.copy[id] == run[n + 1].db.rows[id]
  {
    ReplicaStaysInSync(user, run, n);
    var s := run[n];
    DeliveryIsOnlyStep(user, s, run[n + 1]);
    FullPageAgrees(s.phase.at, s.db, user, s.replica, s.phase.limit, s.phase.page, id);
  }

  // ---------------------------------------------------------------- watermarks and resets

  /** A watermark accepted against an earlier maximum may still be stored later. */
  lemma CheckedAckIsValid(was: Db, now: Db, user: UserId, max: Revision, device: string, revision: Revision)
    requires WellFormed(was) && Evolves(was, now) && IsMaxRevision(was, user, max) && revision <= max
    ensures ValidStep(now, Ack(user, device, revision))
  {
    if revision != 0 {
      var id :| id in was.rows && was.rows[id].user == user && was.rows[id].revision == max;
      assert Indexed(was, id);
      assert Logged(now, user, max);
    }
  }
}
