/**
  Many transactions at once: each locks its account, draws revisions from the one global sequence
  while others draw theirs, and commits or aborts. Every interleaving amounts to a run of atomic
  steps, in the order of the commits.
 */
module LockProtocol {
  import opened ServerConfig
  import opened Database
  import opened Evolution
  import opened Store
  import opened Sync
  import opened Isolation

  type TxnId = nat

  /** An open transaction. Its plan was made from what it read under the lock. */
  datatype Txn = Txn(user: UserId, op: Op, now: Time, plan: Plan, drawn: map<RowId, Revision>)

  datatype Machine = Machine(db: Db, lastRevision: Revision, lastRow: RowId, open: map<TxnId, Txn>)

  datatype Event =
    | Begin(txn: TxnId, user: UserId, op: Op, now: Time)
    | Draw(txn: TxnId, id: RowId)
    | Commit(txn: TxnId)
    | Abort(txn: TxnId)
    | Unlocked(step: Step)

  /** What the services check of a request before a transaction starts. */
  ghost predicate ValidRequest(op: Op) {
    match op
    case Create(id, u) => u.Valid()
    case Mutate(asset, request) => asset != "" && request.Valid()
    case UploadById(id, u) => u.Valid()
    case LegacyDelete(id) => true
    case Rotate(items, verify) => true
    case Migrate(items, sha256) => forall i :: 0 <= i < |items| ==> items[i].Valid()
  }

  /** No open transaction holds the lock of the account. */
  ghost predicate Free(m: Machine, user: UserId) {
    forall t | t in m.open :: m.open[t].user != user
  }

  /** What each event does, the lock aside. */
  ghost predicate Possible(m: Machine, e: Event) {
    match e
    case Begin(t, user, op, now) =>
      t !in m.open && Representable(now) && ValidRequest(op) && (op.Create? ==> op.id == m.lastRow + 1)
    case Draw(t, id) => t in m.open && m.open[t].plan.Save? && id in m.open[t].plan.rows && id !in m.open[t].drawn
    case Commit(t) =>
      && t in m.open && Stampable(m.open[t].plan, m.open[t].drawn)
      && (m.open[t].plan.Save? && m.open[t].plan.newToken ==> m.open[t].user in m.db.accounts)
    case Abort(t) => t in m.open
    case Unlocked(step) => !step.Locked? && ValidStep(m.db, step)
  }

  /** Numbers drawn by a transaction that aborts stay drawn. */
  ghost function Apply(m: Machine, e: Event): Machine
    requires Possible(m, e)
  {
    match e
    case Begin(t, user, op, now) =>
      m.(open := m.open[t := Txn(user, op, now, PlanOf(m.db, user, op, now), map[])],
         lastRow := if op.Create? then op.id else m.lastRow)
    case Draw(t, id) =>
      var txn := m.open[t];
      m.(open := m.open[t := txn.(drawn := txn.drawn[id := m.lastRevision + 1])], lastRevision := m.lastRevision + 1)
    case Commit(t) =>
      var txn := m.open[t];
      m.(db := Execute(m.db, txn.user, txn.plan, txn.drawn), open := m.open - {t})
    case Abort(t) => m.(open := m.open - {t})
    case Unlocked(step) => m.(db := Next(m.db, step))
  }

  /** The lock: one open transaction for each account, and a user record is changed under the lock only. */
  ghost predicate Respects(m: Machine, e: Event) {
    match e
    case Begin(_, user, _, _) => Free(m, user)
    case Unlocked(step) => step.SetAccount? ==> Free(m, step.user)
    case _ => true
  }

  /** A transaction commits when it has drawn a revision for each row it writes; the rest is the invariant's. */
  ghost predicate Enabled(m: Machine, e: Event) {
    && Respects(m, e)
    && if e.Commit? then
         e.txn in m.open && (m.open[e.txn].plan.Save? ==> m.open[e.txn].drawn.Keys == m.open[e.txn].plan.rows.Keys)
       else Possible(m, e)
  }

  /** The revisions drawn by an open transaction are still above everything committed for its account. */
  ghost predicate Drawn(m: Machine, t: TxnId)
    requires t in m.open
  {
    var txn := m.open[t];
    && Injective(txn.drawn)
    && (forall id | id in txn.drawn :: txn.plan.Save? && id in txn.plan.rows)
    && (forall id | id in txn.drawn :: txn.drawn[id] <= m.lastRevision && FreshRevision(m.db, txn.user, txn.drawn[id]))
  }

  /** A plan that writes is still the plan the transaction would make if it started now. */
  ghost predicate Current(m: Machine, t: TxnId)
    requires t in m.open
  {
    var txn := m.open[t];
    && Representable(txn.now)
    && (Writes(txn.plan) ==> ValidOp(m.db, txn.op) && PlanOf(m.db, txn.user, txn.op, txn.now) == txn.plan)
    && (txn.plan.Save? && txn.plan.newToken ==> txn.user in m.db.accounts)
    && (txn.op.Create? ==> FreshId(m.db, txn.op.id) && txn.op.id <= m.lastRow)
  }

  /** No two open transactions share an account, a revision or a new row identifier. */
  ghost predicate Apart(t: Txn, u: Txn) {
    && t.user != u.user
    && (forall i, j | i in t.drawn && j in u.drawn :: t.drawn[i] != u.drawn[j])
    && (t.op.Create? && u.op.Create? ==> t.op.id != u.op.id)
  }

  ghost predicate Inv(m: Machine) {
    && WellFormed(m.db) && Ahead(m.db.log, m.lastRevision, m.lastRow)
    && (forall t | t in m.open :: Current(m, t) && Drawn(m, t))
    && (forall t, u | t in m.open && u in m.open && t != u :: Apart(m.open[t], m.open[u]))
  }

  /** Under the invariant an enabled commit is always possible. */
  lemma EnabledIsPossible(m: Machine, e: Event)
    requires Inv(m) && Enabled(m, e)
    ensures Possible(m, e)
  {
    if e.Commit? {
      assert Current(m, e.txn) && Drawn(m, e.txn);
    }
  }

  /** The next state of a machine that keeps the lock discipline. */
  ghost function Advance(m: Machine, e: Event): Machine
    requires Inv(m) && Enabled(m, e)
  {
    EnabledIsPossible(m, e);
    Apply(m, e)
  }

  // ---------------------------------------------------------------- what a change elsewhere leaves open

  lemma CurrentStays(m: Machine, next: Machine, t: TxnId)
    requires t in m.open && t in next.open && next.open[t] == m.open[t] && Current(m, t)
    requires WellFormed(m.db) && WellFormed(next.db) && SameFor(m.open[t].user, m.db, next.db)
    requires m.lastRow <= next.lastRow
    requires m.open[t].op.Create? ==> FreshId(next.db, m.open[t].op.id)
    ensures Current(next, t)
  {
    var txn := m.open[t];
    if Writes(txn.plan) {
      PlanIsIsolated(txn.user, m.db, next.db, txn.op, txn.now);
    }
  }

  lemma DrawnStays(m: Machine, next: Machine, t: TxnId)
    requires t in m.open && t in next.open && next.open[t] == m.open[t] && Drawn(m, t)
    requires Invisible(m.open[t].user, m.db, next.db) && m.lastRevision <= next.lastRevision
    requires forall id | id in m.open[t].drawn :: m.open[t].drawn[id] !in next.db.log
    ensures Drawn(next, t)
  {
  }

  // ---------------------------------------------------------------- events that commit nothing

  lemma BeginKeeps(m: Machine, t: TxnId, user: UserId, op: Op, now: Time)
    requires Inv(m) && Enabled(m, Begin(t, user, op, now))
    ensures Inv(Advance(m, Begin(t, user, op, now)))
  {
    var next := Advance(m, Begin(t, user, op, now));
    if op.Create? {
      UnknownId(m.db, op.id, m.lastRevision, m.lastRow);
    }
    forall other | other in next.open ensures Current(next, other) && Drawn(next, other) {
      if other != t {
        CurrentStays(m, next, other);
        DrawnStays(m, next, other);
      }
    }
    forall u, v | u in next.open && v in next.open && u != v ensures Apart(next.open[u], next.open[v]) {
      assert u != t ==> Current(m, u);
      assert v != t ==> Current(m, v);
    }
  }

  lemma DrawIsFresh(m: Machine, next: Machine, t: TxnId, id: RowId, revision: Revision)
    requires t in m.open && Drawn(m, t) && Ahead(m.db.log, m.lastRevision, m.lastRow)
    requires m.open[t].plan.Save? && id in m.open[t].plan.rows && id !in m.open[t].drawn
    requires revision == m.lastRevision + 1 && next.db == m.db && next.lastRevision == revision && t in next.open
    requires next.open[t] == m.open[t].(drawn := m.open[t].drawn[id := revision])
    ensures Drawn(next, t)
  {
  }

  lemma DrawStaysApart(m: Machine, t: Txn, u: Txn, id: RowId, revision: Revision)
    requires Apart(t, u) && revision == m.lastRevision + 1
    requires forall i | i in t.drawn :: t.drawn[i] <= m.lastRevision
    ensures Apart(t, u.(drawn := u.drawn[id := revision])) && Apart(u.(drawn := u.drawn[id := revision]), t)
  {
  }

  lemma CurrentIsSame(m: Machine, next: Machine, t: TxnId)
    requires t in m.open && t in next.open && Current(m, t) && next.db == m.db && next.lastRow >= m.lastRow
    requires next.open[t].(drawn := m.open[t].drawn) == m.open[t]
    ensures Current(next, t)
  {
  }

  lemma DrawKeeps(m: Machine, t: TxnId, id: RowId)
    requires Inv(m) && Enabled(m, Draw(t, id))
    ensures Inv(Advance(m, Draw(t, id)))
  {
    var next := Advance(m, Draw(t, id));
    DrawIsFresh(m, next, t, id, next.lastRevision);
    forall other | other in next.open ensures Current(next, other) && Drawn(next, other) {
      CurrentIsSame(m, next, other);
      if other != t {
        DrawnStays(m, next, other);
      }
    }
    forall u, v | u in next.open && v in next.open && u != v ensures Apart(next.open[u], next.open[v]) {
      assert Apart(m.open[u], m.open[v]) && Apart(m.open[v], m.open[u]) && Drawn(m, u) && Drawn(m, v);
      if v == t {
        DrawStaysApart(m, m.open[u], m.open[v], id, next.lastRevision);
      } else if u == t {
        DrawStaysApart(m, m.open[v], m.open[u], id, next.lastRevision);
      }
    }
  }

  lemma AbortKeeps(m: Machine, t: TxnId)
    requires Inv(m) && Enabled(m, Abort(t))
    ensures Inv(Advance(m, Abort(t)))
  {
    var next := Advance(m, Abort(t));
    forall other | other in next.open ensures Current(next, other) && Drawn(next, other) {
      assert Current(m, other) && Drawn(m, other);
      CurrentStays(m, next, other);
      DrawnStays(m, next, other);
    }
  }

  // ---------------------------------------------------------------- events that change the database

  ghost predicate AddedEntry(drawn: map<RowId, Revision>, ids: set<RowId>, r: Revision, change: Change) {
    change.config in ids && change.config in drawn && drawn[change.config] == r
  }

  /** What a commit can add: log entries under the drawn revisions, about the planned rows. */
  ghost predicate Adds(db: Db, drawn: map<RowId, Revision>, ids: set<RowId>, after: Db) {
    && (forall r | r in after.log ::
          (r in db.log && after.log[r] == db.log[r]) || AddedEntry(drawn, ids, r, after.log[r]))
    && after.rows.Keys <= db.rows.Keys + ids
  }

  lemma SaveAdds(
      db: Db, writer: UserId, planned: map<RowId, Row>, drawn: map<RowId, Revision>, rows: map<RowId, Row>, after: Db)
    requires planned.Keys <= drawn.Keys && Injective(drawn) && rows == Stamp(planned, drawn)
    requires LawfulWrite(db, writer, rows) && after.rows == db.rows + rows && after.log == db.log + LogOf(rows)
    ensures Adds(db, drawn, planned.Keys, after)
  {
    forall r | r in LogOf(rows) ensures AddedEntry(drawn, planned.Keys, r, LogOf(rows)[r]) {
      NewEntry(db, writer, rows, r);
    }
  }

  lemma ExecuteAdds(db: Db, writer: UserId, plan: Plan, drawn: map<RowId, Revision>, after: Db)
    requires Stampable(plan, drawn) && (plan.Save? && plan.newToken ==> writer in db.accounts)
    requires plan.Save? ==> LawfulWrite(db, writer, Stamp(plan.rows, drawn))
    requires after == Execute(db, writer, plan, drawn)
    ensures Adds(db, drawn, if plan.Save? then plan.rows.Keys else {}, after)
  {
    if plan.Save? {
      SaveAdds(db, writer, plan.rows, drawn, Stamp(plan.rows, drawn), after);
    }
  }

  /** Which rows a plan touches. */
  lemma PlanTargets(db: Db, user: UserId, op: Op, now: Time)
    requires WellFormed(db) && ValidOp(db, op)
    ensures PlanOf(db, user, op, now).Save? ==>
      forall id | id in PlanOf(db, user, op, now).rows :: id in db.rows || (op.Create? && id == op.id)
    ensures PlanOf(db, user, op, now).Drop? ==>
      PlanOf(db, user, op, now).id in db.rows && db.rows[PlanOf(db, user, op, now).id].user == user
  {
    if op.Mutate? {
      AssetLookup(db, user, op.asset);
    }
  }

  lemma CommitExecutes(m: Machine, t: TxnId)
    requires Inv(m) && Enabled(m, Commit(t))
    ensures var txn := m.open[t];
      && Stampable(txn.plan, txn.drawn) && (txn.plan.Save? && txn.plan.newToken ==> txn.user in m.db.accounts)
      && Advance(m, Commit(t)).db == Execute(m.db, txn.user, txn.plan, txn.drawn)
  {
    assert Current(m, t) && Drawn(m, t);
  }

  /** A commit that writes is one valid atomic step. */
  lemma CommitIsStep(m: Machine, t: TxnId)
    requires Inv(m) && Enabled(m, Commit(t)) && Writes(m.open[t].plan)
    ensures var txn := m.open[t];
      && ValidStep(m.db, Locked(txn.user, txn.op, txn.drawn, txn.now))
      && Advance(m, Commit(t)).db == Next(m.db, Locked(txn.user, txn.op, txn.drawn, txn.now))
  {
    var txn := m.open[t];
    CommitExecutes(m, t);
    assert Current(m, t) && Drawn(m, t);
    StepExecutes(m.db, txn.user, txn.op, txn.drawn, txn.now, txn.plan);
  }

  /** Another account's transaction is untouched by a commit. */
  lemma CommitLeaves(m: Machine, next: Machine, t: TxnId, other: TxnId, ids: set<RowId>)
    requires t in m.open && other in m.open && other != t && Drawn(m, other) && Current(m, other)
    requires other in next.open && next.open[other] == m.open[other]
    requires next.lastRevision == m.lastRevision && next.lastRow == m.lastRow
    requires Apart(m.open[t], m.open[other])
    requires WellFormed(m.db) && WellFormed(next.db) && Invisible(m.open[other].user, m.db, next.db)
    requires Adds(m.db, m.open[t].drawn, ids, next.db)
    requires forall id | id in ids :: id in m.db.rows || (m.open[t].op.Create? && id == m.open[t].op.id)
    ensures Current(next, other) && Drawn(next, other)
  {
    var mine, txn := m.open[t].drawn, m.open[other];
    forall r | r in next.db.log && r !in m.db.log ensures forall id | id in txn.drawn :: txn.drawn[id] != r {
      assert AddedEntry(mine, ids, r, next.db.log[r]);
    }
    if txn.op.Create? {
      CreateStaysFresh(m.db, next.db, mine, ids, txn.op.id);
    }
    CurrentStays(m, next, other);
    DrawnStays(m, next, other);
  }

  lemma CreateStaysFresh(db: Db, after: Db, drawn: map<RowId, Revision>, ids: set<RowId>, id: RowId)
    requires FreshId(db, id) && Adds(db, drawn, ids, after) && id !in ids
    ensures FreshId(after, id)
  {
  }

  lemma CommitKeepsAhead(m: Machine, t: TxnId, ids: set<RowId>, after: Db)
    requires t in m.open && WellFormed(m.db) && Ahead(m.db.log, m.lastRevision, m.lastRow) && Drawn(m, t)
    requires Adds(m.db, m.open[t].drawn, ids, after)
    requires forall id | id in ids :: id in m.db.rows || id <= m.lastRow
    ensures Ahead(after.log, m.lastRevision, m.lastRow)
  {
    forall id | id in ids ensures id <= m.lastRow {
      if id in m.db.rows {
        KnownId(m.db, id, m.lastRevision, m.lastRow);
      }
    }
  }

  lemma CommitIsLawful(m: Machine, t: TxnId, next: Machine)
    requires Inv(m) && Enabled(m, Commit(t)) && next == Advance(m, Commit(t))
    ensures WellFormed(next.db)
    ensures var txn := m.open[t];
      && Stampable(txn.plan, txn.drawn) && (txn.plan.Save? && txn.plan.newToken ==> txn.user in m.db.accounts)
      && (txn.plan.Save? ==> LawfulWrite(m.db, txn.user, Stamp(txn.plan.rows, txn.drawn)))
      && (txn.plan.Save? ==> forall id | id in txn.plan.rows :: id in m.db.rows || (txn.op.Create? && id == txn.op.id))
      && (txn.plan.Drop? && txn.plan.id in m.db.rows ==> m.db.rows[txn.plan.id].user == txn.user)
  {
    var txn := m.open[t];
    assert Current(m, t) && Drawn(m, t);
    if Writes(txn.plan) {
      CommitIsStep(m, t);
      PlanTargets(m.db, txn.user, txn.op, txn.now);
      StepIsLawful(m.db, Locked(txn.user, txn.op, txn.drawn, txn.now));
      if txn.plan.Save? {
        PlanIsLawful(m.db, txn.user, txn.op, txn.drawn, txn.now);
      }
    }
  }

  lemma CommitKeeps(m: Machine, t: TxnId)
    requires Inv(m) && Enabled(m, Commit(t))
    ensures Inv(Advance(m, Commit(t)))
  {
    var next, txn := Advance(m, Commit(t)), m.open[t];
    CommitIsLawful(m, t, next);
    var ids := if txn.plan.Save? then txn.plan.rows.Keys else {};
    ExecuteAdds(m.db, txn.user, txn.plan, txn.drawn, next.db);
    assert Current(m, t) && Drawn(m, t);
    CommitKeepsAhead(m, t, ids, next.db);
    forall other | other in next.open ensures Current(next, other) && Drawn(next, other) {
      assert Apart(m.open[t], m.open[other]);
      ExecuteIsForeign(m.db, txn.user, txn.plan, txn.drawn, m.open[other].user, next.db);
      CommitLeaves(m, next, t, other, ids);
    }
  }

  lemma UnlockedIsInvisible(db: Db, step: Step, user: UserId)
    requires WellFormed(db) && !step.Locked? && ValidStep(db, step) && (step.SetAccount? ==> step.user != user)
    ensures Invisible(user, db, Next(db, step)) && Next(db, step).log == db.log
    ensures Next(db, step).rows.Keys <= db.rows.Keys
  {
    match step
    case Ack(_, _, _) =>
    case Collect(ids) => DropIsForeign(db, ids, user, Next(db, step));
    case SetAccount(writer, account) => AccountIsForeign(db, db, writer, account, user, Next(db, step));
  }

  lemma UnlockedKeeps(m: Machine, step: Step)
    requires Inv(m) && Enabled(m, Unlocked(step))
    ensures Inv(Advance(m, Unlocked(step)))
  {
    var next := Advance(m, Unlocked(step));
    StepIsLawful(m.db, step);
    forall other | other in next.open ensures Current(next, other) && Drawn(next, other) {
      UnlockedIsInvisible(m.db, step, m.open[other].user);
      CurrentStays(m, next, other);
      DrawnStays(m, next, other);
    }
  }

  // ---------------------------------------------------------------- runs

  lemma EventKeeps(m: Machine, e: Event)
    requires Inv(m) && Enabled(m, e)
    ensures Inv(Advance(m, e))
  {
    match e
    case Begin(t, user, op, now) => BeginKeeps(m, t, user, op, now);
    case Draw(t, id) => DrawKeeps(m, t, id);
    case Commit(t) => CommitKeeps(m, t);
    case Abort(t) => AbortKeeps(m, t);
    case Unlocked(step) => UnlockedKeeps(m, step);
  }

  ghost predicate ValidEvents(m: Machine, events: seq<Event>)
    requires Inv(m)
    decreases |events|
  {
    || events == []
    || (Enabled(m, events[0]) && (EventKeeps(m, events[0]); ValidEvents(Advance(m, events[0]), events[1..])))
  }

  ghost function Run(m: Machine, events: seq<Event>): (r: Machine)
    requires Inv(m) && ValidEvents(m, events)
    ensures Inv(r)
    decreases |events|
  {
    if events == [] then m else EventKeeps(m, events[0]); Run(Advance(m, events[0]), events[1..])
  }

  /** The atomic step an event amounts to, if it changes anything: a transaction acts when it commits. */
  ghost function Atomic(m: Machine, e: Event): seq<Step>
    requires Inv(m) && Enabled(m, e)
  {
    match e
    case Commit(t) =>
      var txn := m.open[t];
      if Writes(txn.plan) then [Locked(txn.user, txn.op, txn.drawn, txn.now)] else []
    case Unlocked(step) => [step]
    case _ => []
  }

  ghost function Serial(m: Machine, events: seq<Event>): seq<Step>
    requires Inv(m) && ValidEvents(m, events)
    decreases |events|
  {
    if events == [] then [] else
    EventKeeps(m, events[0]);
    Atomic(m, events[0]) + Serial(Advance(m, events[0]), events[1..])
  }

  lemma EventIsAtomic(m: Machine, e: Event)
    requires Inv(m) && Enabled(m, e)
    ensures ValidRun(m.db, Atomic(m, e)) && After(m.db, Atomic(m, e)) == Advance(m, e).db
  {
    if e.Commit? && Writes(m.open[e.txn].plan) {
      CommitIsStep(m, e.txn);
    }
  }

  /** Every interleaving is equivalent to the atomic steps of its commits, in commit order. */
  lemma {:induction false} InterleavingIsSerial(m: Machine, events: seq<Event>)
    requires Inv(m) && ValidEvents(m, events)
    ensures ValidRun(m.db, Serial(m, events)) && After(m.db, Serial(m, events)) == Run(m, events).db
    decreases |events|
  {
    if events != [] {
      var next := Advance(m, events[0]);
      EventKeeps(m, events[0]);
      EventIsAtomic(m, events[0]);
      InterleavingIsSerial(next, events[1..]);
      RunsCompose(m.db, Atomic(m, events[0]), Serial(next, events[1..]));
    }
  }

  /** A machine with no open transaction satisfies the invariant, so every run may start from one. */
  lemma QuietMachineIsValid(db: Db, lastRevision: Revision, lastRow: RowId)
    requires WellFormed(db) && Ahead(db.log, lastRevision, lastRow)
    ensures Inv(Machine(db, lastRevision, lastRow, map[]))
  {
  }

  /**
    No cursor gap: once a revision of an account is visible, every later commit for that account has
    a higher one, although all accounts draw from one sequence and aborted draws leave holes.
   */
  lemma NoCursorGap(m: Machine, events: seq<Event>, user: UserId, seen: Revision, later: Revision)
    requires Inv(m) && ValidEvents(m, events)
    requires Logged(m.db, user, seen) && Logged(Run(m, events).db, user, later) && later !in m.db.log
    ensures seen < later
  {
    InterleavingIsSerial(m, events);
    RunIsLawful(m.db, Serial(m, events));
  }

  // ---------------------------------------------------------------- nothing gets stuck

  lemma ExtendEvents(m: Machine, first: Event, rest: seq<Event>)
    requires Inv(m) && Enabled(m, first) && Inv(Advance(m, first)) && ValidEvents(Advance(m, first), rest)
    ensures ValidEvents(m, [first] + rest) && Run(m, [first] + rest) == Run(Advance(m, first), rest)
  {
    assert ([first] + rest)[1..] == rest;
  }

  /** The revisions a transaction still has to draw. */
  ghost function Undrawn(txn: Txn): set<RowId> {
    if txn.plan.Save? then txn.plan.rows.Keys - txn.drawn.Keys else {}
  }

  /** These events commit the transaction, as one step on the present database, and move nothing else. */
  ghost predicate FinishesBy(m: Machine, t: TxnId, events: seq<Event>)
    requires Inv(m) && t in m.open
  {
    && ValidEvents(m, events) && Run(m, events).open == m.open - {t}
    && IsCommitted(m.db, m.open[t], Run(m, events).db)
  }

  ghost predicate IsCommitted(db: Db, txn: Txn, after: Db) {
    if Writes(txn.plan) then
      exists revisions :: (
        && ValidStep(db, Locked(txn.user, txn.op, revisions, txn.now))
        && after == Next(db, Locked(txn.user, txn.op, revisions, txn.now)))
    else after == db
  }

  lemma CommitFinishes(m: Machine, t: TxnId)
    requires Inv(m) && t in m.open && Undrawn(m.open[t]) == {}
    ensures FinishesBy(m, t, [Commit(t)])
  {
    var commit, txn := Commit(t), m.open[t];
    assert Drawn(m, t);
    AllDrawn(txn);
    EventKeeps(m, commit);
    ExtendEvents(m, commit, []);
    assert [commit] + [] == [commit];
    CommitIsCommitted(m, t);
  }

  lemma AllDrawn(txn: Txn)
    requires Undrawn(txn) == {} && forall id | id in txn.drawn :: txn.plan.Save? && id in txn.plan.rows
    ensures txn.plan.Save? ==> txn.drawn.Keys == txn.plan.rows.Keys
  {
    forall id | txn.plan.Save? && id in txn.plan.rows ensures id in txn.drawn {
      assert id !in Undrawn(txn);
    }
  }

  lemma CommitIsCommitted(m: Machine, t: TxnId)
    requires Inv(m) && t in m.open && Enabled(m, Commit(t))
    ensures IsCommitted(m.db, m.open[t], Advance(m, Commit(t)).db)
  {
    if Writes(m.open[t].plan) {
      CommitIsStep(m, t);
    }
  }

  lemma DrawThenFinishes(m: Machine, t: TxnId, id: RowId, rest: seq<Event>)
    requires Inv(m) && Enabled(m, Draw(t, id)) && Inv(Advance(m, Draw(t, id)))
    requires FinishesBy(Advance(m, Draw(t, id)), t, rest)
    ensures FinishesBy(m, t, [Draw(t, id)] + rest)
  {
    var next := Advance(m, Draw(t, id));
    ExtendEvents(m, Draw(t, id), rest);
    UpdateThenRemove(m.open, t, next.open[t], next.open);
    SameCommit(m.db, m.open[t], next.open[t], Run(next, rest).db);
  }

  lemma UpdateThenRemove<K, V>(a: map<K, V>, k: K, v: V, b: map<K, V>)
    requires b == a[k := v]
    ensures b - {k} == a - {k}
  {
  }

  lemma SameCommit(db: Db, txn: Txn, drawn: Txn, after: Db)
    requires drawn == txn.(drawn := drawn.drawn) && IsCommitted(db, drawn, after)
    ensures IsCommitted(db, txn, after)
  {
  }

  /** An open transaction can always draw what it needs and commit, whatever else is open. */
  lemma {:induction false} OpenTransactionFinishes(m: Machine, t: TxnId) returns (events: seq<Event>)
    requires Inv(m) && t in m.open
    ensures FinishesBy(m, t, events)
    decreases |Undrawn(m.open[t])|
  {
    if Undrawn(m.open[t]) == {} {
      CommitFinishes(m, t);
      events := [Commit(t)];
    } else {
      var id :| id in Undrawn(m.open[t]);
      EventKeeps(m, Draw(t, id));
      var next := Advance(m, Draw(t, id));
      assert Undrawn(next.open[t]) == Undrawn(m.open[t]) - {id};
      var rest := OpenTransactionFinishes(next, t);
      DrawThenFinishes(m, t, id, rest);
      events := [Draw(t, id)] + rest;
    }
  }

  /** Any request about an account nobody has locked can begin, whoever else has begun. */
  lemma FreeAccountBegins(m: Machine, t: TxnId, user: UserId, op: Op, now: Time)
    requires Inv(m) && t !in m.open && (forall other | other in m.open :: m.open[other].user != user)
    requires Representable(now) && ValidRequest(op) && (op.Create? ==> op.id == m.lastRow + 1)
    ensures Enabled(m, Begin(t, user, op, now)) && t in Advance(m, Begin(t, user, op, now)).open
    ensures Advance(m, Begin(t, user, op, now)).db == m.db
    ensures Advance(m, Begin(t, user, op, now)).open[t].plan == PlanOf(m.db, user, op, now)
  {
  }

  // ---------------------------------------------------------------- why the lock is taken first

  lemma UnboundCreatePlan(db: Db, user: UserId, id: RowId, u: UploadInput, now: Time)
    requires user in db.accounts && u.asset == ""
    ensures PlanOf(db, user, Create(id, u), now) == Plan.Save(map[id := NewRow(user, id, u, now)], false)
  {
  }

  /** A first upload begins and draws its revision. */
  lemma BeginAndDraw(m: Machine, t: TxnId, user: UserId, u: UploadInput, now: Time)
    returns (begun: Machine, drawn: Machine)
    requires user in m.db.accounts && u.Valid() && u.asset == "" && Representable(now) && t !in m.open
    ensures var begin, draw := Begin(t, user, Create(m.lastRow + 1, u), now), Draw(t, m.lastRow + 1);
      && Possible(m, begin) && begun == Apply(m, begin) && Possible(begun, draw) && drawn == Apply(begun, draw)
    ensures drawn.db == m.db && drawn.lastRevision == m.lastRevision + 1 && drawn.lastRow == m.lastRow + 1
    ensures drawn.open == m.open[t := Txn(
      user, Create(m.lastRow + 1, u), now, Plan.Save(map[m.lastRow + 1 := NewRow(user, m.lastRow + 1, u, now)], false),
      map[m.lastRow + 1 := m.lastRevision + 1])]
  {
    UnboundCreatePlan(m.db, user, m.lastRow + 1, u, now);
    begun := Apply(m, Begin(t, user, Create(m.lastRow + 1, u), now));
    drawn := Apply(begun, Draw(t, m.lastRow + 1));
  }

  lemma CommitOne(m: Machine, t: TxnId, row: Row, saved: Row) returns (next: Machine)
    requires t in m.open && m.open[t].plan == Plan.Save(map[row.id := row], false)
    requires m.open[t].drawn == map[row.id := saved.revision] && saved == row.(revision := saved.revision)
    ensures Possible(m, Commit(t)) && next == Apply(m, Commit(t))
    ensures next == m.(db := Saved(m.db, saved), open := m.open - {t})
  {
    OneRowExecutes(m.db, m.open[t].user, row, saved);
    next := Apply(m, Commit(t));
  }

  ghost predicate Happens(m: Machine, e: Event, next: Machine) {
    Possible(m, e) && next == Apply(m, e)
  }

  /** The later commit is on top of what the reader saw, and below its cursor. */
  lemma LateRowIsMissed(db: Db, user: UserId, quick: Row, late: Row, cursor: Revision)
    requires quick.user == user && late.user == user && quick.id != late.id && late.id !in db.rows
    requires late.revision < quick.revision && IsMaxRevision(Saved(db, quick), user, cursor)
    ensures late.id !in Saved(db, quick).rows
    ensures var last := Saved(Saved(db, quick), late);
      last.rows[late.id] == late && !ChangedAfter(late, user, cursor)
  {
    assert quick.id in Saved(db, quick).rows;
  }

  /**
    Without the lock a cursor gap opens. Two writers of one account draw before either commits, and
    commit in the opposite order: a reader that has caught up in between the two commits is past the
    revision that appears afterwards, and no pull of its sends that row.
   */
  lemma WithoutLockGapOpens(
      m: Machine, user: UserId, slow: UploadInput, fast: UploadInput, now: Time, quick: Row, late: Row)
    returns (m1: Machine, m2: Machine, m3: Machine, m4: Machine, m5: Machine, m6: Machine)
    requires WellFormed(m.db) && Ahead(m.db.log, m.lastRevision, m.lastRow) && m.open == map[] && user in m.db.accounts
    requires slow.Valid() && fast.Valid() && slow.asset == "" && fast.asset == "" && Representable(now)
    requires late == NewRow(user, m.lastRow + 1, slow, now).(revision := m.lastRevision + 1)
    requires quick == NewRow(user, m.lastRow + 2, fast, now).(revision := m.lastRevision + 2)
    ensures Happens(m, Begin(0, user, Create(late.id, slow), now), m1) && Happens(m1, Draw(0, late.id), m2)
    ensures Happens(m2, Begin(1, user, Create(quick.id, fast), now), m3) && Happens(m3, Draw(1, quick.id), m4)
    ensures Happens(m4, Commit(1), m5) && Happens(m5, Commit(0), m6)
    ensures !Free(m2, user)
    ensures late.id !in m5.db.rows && late.id in m6.db.rows && m6.db.rows[late.id] == late
    ensures forall cursor :: IsMaxRevision(m5.db, user, cursor) ==> !ChangedAfter(late, user, cursor)
  {
    m1, m2 := BeginAndDraw(m, 0, user, slow, now);
    m3, m4 := BeginAndDraw(m2, 1, user, fast, now);
    m5 := CommitOne(m4, 1, NewRow(user, quick.id, fast, now), quick);
    m6 := CommitOne(m5, 0, NewRow(user, late.id, slow, now), late);
    assert 0 in m2.open && m2.open[0].user == user;
    UnknownId(m.db, late.id, m.lastRevision, m.lastRow);
    forall cursor | IsMaxRevision(m5.db, user, cursor) ensures !ChangedAfter(late, user, cursor) {
      LateRowIsMissed(m.db, user, quick, late, cursor);
    }
  }
}
