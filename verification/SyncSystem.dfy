/** A pulling client beside transactions in progress: the replica theorems over every interleaving of both. */
module SyncSystem {
  import opened ServerConfig
  import opened Evolution
  import opened Sync
  import LockProtocol

  datatype World = World(machine: LockProtocol.Machine, replica: Replica, phase: Phase)

  /** What the client can see: the committed database only. */
  ghost function View(w: World): Session {
    Session(w.machine.db, w.replica, w.phase)
  }

  /** One event of the transaction machine, or one step of the client. */
  ghost predicate WorldStep(user: UserId, w: World, v: World) {
    || (exists e :: LockProtocol.Inv(w.machine) && LockProtocol.Enabled(w.machine, e)
          && v == w.(machine := LockProtocol.Advance(w.machine, e)))
    || (v.machine == w.machine && ClientStep(user, View(w), View(v)))
  }

  ghost predicate IsWorldRun(user: UserId, run: seq<World>) {
    forall i :: 0 <= i < |run| - 1 ==> WorldStep(user, run[i], run[i + 1])
  }

  lemma WorldStepIsSessionStep(user: UserId, w: World, v: World)
    requires WorldStep(user, w, v) && LockProtocol.Inv(w.machine)
    ensures LockProtocol.Inv(v.machine) && SessionStep(user, View(w), View(v))
  {
    if e :| LockProtocol.Enabled(w.machine, e) && v == w.(machine := LockProtocol.Advance(w.machine, e)) {
      LockProtocol.EventKeeps(w.machine, e);
      LockProtocol.EventIsAtomic(w.machine, e);
      assert View(v) == View(w).(db := After(w.machine.db, LockProtocol.Atomic(w.machine, e)));
    }
  }

  lemma {:induction false} MachineKeepsInvariant(user: UserId, run: seq<World>, n: nat)
    requires IsWorldRun(user, run) && n < |run| && LockProtocol.Inv(run[0].machine)
    ensures LockProtocol.Inv(run[n].machine)
  {
    if n > 0 {
      MachineKeepsInvariant(user, run, n - 1);
      WorldStepIsSessionStep(user, run[n - 1], run[n]);
    }
  }

  ghost function Views(run: seq<World>): (views: seq<Session>)
    ensures |views| == |run| && forall i :: 0 <= i < |run| ==> views[i] == View(run[i])
  {
    seq(|run|, i requires 0 <= i < |run| => View(run[i]))
  }

  lemma ViewsAreRun(user: UserId, run: seq<World>)
    requires IsWorldRun(user, run) && run != [] && LockProtocol.Inv(run[0].machine)
    ensures IsRun(user, Views(run))
  {
    forall i | 0 <= i < |run| - 1 ensures SessionStep(user, Views(run)[i], Views(run)[i + 1]) {
      MachineKeepsInvariant(user, run, i);
      WorldStepIsSessionStep(user, run[i], run[i + 1]);
    }
  }

  /** Replica correctness, with any number of transactions begun and not yet committed at every pull. */
  lemma ReplicaStaysInSyncInterleaved(user: UserId, run: seq<World>, n: nat)
    requires IsWorldRun(user, run) && n < |run|
    requires LockProtocol.Inv(run[0].machine) && run[0].phase.Idle? && run[0].replica.cursor == 0
    ensures InSync(run[n].machine.db, user, run[n].replica)
  {
    ViewsAreRun(user, run);
    ReplicaStaysInSync(user, Views(run), n);
  }

  /** After a last page, with nothing committed since it was listed, the client agrees on every live row. */
  lemma LastPageAgreesInterleaved(user: UserId, run: seq<World>, n: nat, id: RowId)
    requires IsWorldRun(user, run) && n + 1 < |run|
    requires LockProtocol.Inv(run[0].machine) && run[0].phase.Idle? && run[0].replica.cursor == 0
    requires run[n].phase.Listed? && run[n + 1].phase.Idle?
    requires !run[n].phase.page.resetRequired && !run[n].phase.page.hasMore
    requires run[n].phase.at.rows == run[n].machine.db.rows
    requires id in run[n + 1].machine.db.rows && run[n + 1].machine.db.rows[id].user == user
    ensures id in run[n + 1].replica.copy && run[n + 1].replica.copy[id] == run[n + 1].machine.db.rows[id]
  {
    ViewsAreRun(user, run);
    LastPageAgrees(user, Views(run), n, id);
  }
}
