/** The database file and the two programs that write it: the adapters of the gateway and
    the operator's script. Each method is one transaction; its specification is the
    transaction function that the protocol runs. */
module JobDatabase {
  import opened Common
  import opened JobTable
  import opened AdmissionGate
  import opened JobDrain

  /** The committed contents: the jobs table and the two settings rows. */
  class Database {
    var rows: Table
    var draining: Option<string>
    var drainOwner: Option<Hash>

    constructor ()
      ensures rows == map[] && GateNow() == OPEN
    {
      rows, draining, drainOwner := map[], None, None;
    }

    function GateNow(): Gate
      reads this
    {
      Gate(draining, drainOwner)
    }
  }

  /** One adapter's view of a shared database. */
  class ResumableJobs {
    const db: Database
    const lim: Limits

    constructor (db: Database, lim: Limits)
      ensures this.db == db && this.lim == lim
    {
      this.db, this.lim := db, lim;
    }

    /** The transaction of `prepare`, with the random ID and credential as arguments. */
    method PrepareTransaction(p: Preparation) returns (reply: PrepareReply)
      requires Consistent(lim, db.rows) && p.job !in db.rows
      modifies db
      ensures (db.rows, reply) == Prepare(lim, old(db.rows), p)
      ensures db.GateNow() == old(db.GateNow()) && Consistent(lim, db.rows)
    {
      PrepareKeepsConsistent(lim, db.rows, p);
      SweepKeepsConsistent(lim, db.rows, p.now);
      var swept := Sweep(db.rows, p.now);
      if p.key.Some? {
        var holders := Holders(swept, p.key.value);
        if holders != {} {
          var previous :| previous in holders;
          if swept[previous].request != p.request {
            return KeyConflict;
          }
          db.rows := swept;
          return Replayed(previous, swept[previous].state);
        }
      }
      if |PreparedRows(swept)| >= lim.maxPrepared {
        return PreparedFull;
      }
      if |PreparedOf(swept, p.owner)| >= lim.maxPreparedPerOwner {
        return OwnerPreparedFull;
      }
      db.rows := swept[p.job := FreshRow(lim, p)];
      return Issued(p.job);
    }

    /** The scan of `start` for an active job in an overlapping directory. */
    method WorkspaceBusyScan(active: set<JobId>, path: Path) returns (busy: bool)
      requires active <= db.rows.Keys
      ensures busy <==> exists j :: j in active && Overlap(path, db.rows[j].workdir)
    {
      var todo := active;
      while todo != {}
        invariant todo <= active
        invariant forall j :: j in active - todo ==> !Overlap(path, db.rows[j].workdir)
        decreases |todo|
      {
        var j :| j in todo;
        if Overlap(path, db.rows[j].workdir) {
          return true;
        }
        todo := todo - {j};
      }
      return false;
    }

    /** The transaction of `start`; `directoryOk` is the answer of the file system. */
    method StartTransaction(job: JobId, secret: Hash, caller: Hash, now: Time, directoryOk: bool)
      returns (reply: AdmitReply)
      requires Consistent(lim, db.rows)
      modifies db
      ensures (db.rows, reply) == Admit(lim, old(db.rows),
        Admission(job, secret, caller, now, GatewayPaused(old(db.draining)), directoryOk))
      ensures reply.Admitted? ==>
        && job in old(db.rows) && var r := old(db.rows)[job];
        && db.rows == old(db.rows)[job := r.(state := Starting, owner := caller, updated := now, command := None,
                                             deadline := now + r.maxRuntime as real)]
        && Some(reply.command) == r.command && reply.workdir == r.workdir
      ensures db.GateNow() == old(db.GateNow()) && Consistent(lim, db.rows)
    {
      AdmitKeepsConsistent(lim, db.rows,
        Admission(job, secret, caller, now, GatewayPaused(db.draining), directoryOk));
      if job !in db.rows || db.rows[job].credential != secret {
        return BadCredential;
      }
      var r := db.rows[job];
      if !r.state.Prepared? {
        return Existing(r);
      }
      if r.expires <= now {
        db.rows := db.rows[job := ExpiredRow(r, now)];
        return ExpiredNow(ExpiredRow(r, now));
      }
      if GatewayPaused(db.draining) {
        return AdmitReply.Draining;
      }
      var active := Active(db.rows);
      if |active| >= lim.maxActive {
        return ActiveFull;
      }
      if |ActiveOf(db.rows, caller)| >= lim.maxPerSession {
        return CallerFull;
      }
      if !directoryOk {
        return WorkdirChanged;
      }
      var busy := WorkspaceBusyScan(active, r.workdir);
      if busy {
        return WorkspaceBusy;
      }
      if r.command.None? {
        return PayloadMissing;
      }
      db.rows := db.rows[job := r.(state := Starting, owner := caller,
        deadline := now + r.maxRuntime as real, updated := now, command := None)];
      return Admitted(r.command.value, r.workdir);
    }

    /** `_update`. */
    method UpdateRow(job: JobId, p: Patch, expected: set<JobState>, now: Time) returns (changed: bool)
      requires Consistent(lim, db.rows) && GuardedWrite(p, expected)
      modifies db
      ensures (db.rows, changed) == Update(old(db.rows), job, p, expected, now)
      ensures changed <==> job in old(db.rows) && old(db.rows)[job].state in expected
      ensures !changed ==> db.rows == old(db.rows)
      ensures changed ==>
        && job in db.rows && var r, q := old(db.rows)[job], db.rows[job];
        && db.rows == old(db.rows)[job := q]
        && q == r.(state := p.state, updated := now, native := q.native, exit := q.exit, output := q.output,
                   command := q.command)
        && (p.native.Some? ==> q.native == p.native) && (p.native.None? ==> q.native == r.native)
        && (p.exit.Some? ==> q.exit == p.exit.value) && (p.exit.None? ==> q.exit == r.exit)
        && (p.output.Some? ==> q.output == p.output.value) && (p.output.None? ==> q.output == r.output)
        && (p.clearPrepared ==> q.command.None?) && (!p.clearPrepared ==> q.command == r.command)
      ensures db.GateNow() == old(db.GateNow()) && Consistent(lim, db.rows)
    {
      UpdateKeepsConsistent(lim, db.rows, job, p, expected, now);
      changed := job in db.rows && db.rows[job].state in expected;
      if changed {
        db.rows := db.rows[job := Patched(db.rows[job], p, now)];
      }
    }

    /** `_request_timeout`. */
    method RequestTimeoutRow(job: JobId, now: Time) returns (changed: bool)
      requires Consistent(lim, db.rows)
      modifies db
      ensures (db.rows, changed) == RequestTimeout(old(db.rows), job, now)
      ensures changed <==> job in old(db.rows) && IsActive(old(db.rows)[job].state)
      ensures db.rows == if changed
        then old(db.rows)[job := old(db.rows)[job].(timeoutRequested := true, updated := now)] else old(db.rows)
      ensures db.GateNow() == old(db.GateNow()) && Consistent(lim, db.rows)
    {
      RequestTimeoutKeepsConsistent(lim, db.rows, job, now);
      changed := job in db.rows && IsActive(db.rows[job].state);
      if changed {
        db.rows := db.rows[job := db.rows[job].(timeoutRequested := true, updated := now)];
      }
    }

    /** The query of `maintain`: the jobs to reconcile. It runs before the transaction of the
        deletions is open, so another adapter may commit in between. */
    method ActiveJobs() returns (active: set<JobId>)
      ensures forall j :: j in active <==> j in db.rows && IsActive(db.rows[j].state)
      ensures Consistent(lim, db.rows) ==> |active| <= lim.maxActive
    {
      active := Active(db.rows);
    }

    /** The two deletions of `maintain`, one transaction. */
    method RetireRows(now: Time)
      requires Consistent(lim, db.rows)
      modifies db
      ensures db.rows == Retire(old(db.rows), now) && Active(db.rows) == old(Active(db.rows))
      ensures forall j :: j in db.rows <==>
        && j in old(db.rows)
        && (old(db.rows)[j].state.Prepared? ==> now < old(db.rows)[j].expires)
        && (IsFinal(old(db.rows)[j].state) ==> old(db.rows)[j].updated >= now - 7.0 * 24.0 * 3600.0)
      ensures forall j :: j in db.rows ==> db.rows[j] == old(db.rows)[j]
      ensures db.GateNow() == old(db.GateNow()) && Consistent(lim, db.rows)
    {
      SweepKeepsConsistent(lim, db.rows, now);
      db.rows := Retire(db.rows, now);
    }
  }

  /** `scripts/job_admission.py` on the same database. */
  class JobAdmission {
    const db: Database

    constructor (db: Database)
      ensures this.db == db
    {
      this.db := db;
    }

    /** `set_draining`. */
    method SetDrainingRow(enabled: bool, owner: Hash) returns (reply: GateReply)
      modifies db
      ensures (db.GateNow(), reply) == SetDraining(old(db.GateNow()), enabled, owner)
      ensures db.rows == old(db.rows)
    {
      var paused := ScriptPaused(db.draining);
      if enabled {
        if paused && (db.drainOwner.None? || db.drainOwner.value != owner) {
          return OwnedByAnother;
        }
        db.draining := Some("1");
        db.drainOwner := Some(owner);
      } else {
        if !paused {
          return AlreadyOpen;
        }
        if db.drainOwner.None? || db.drainOwner.value != owner {
          return OwnedByAnother;
        }
        db.draining := Some("0");
        db.drainOwner := None;
      }
      return Done;
    }

    /** `status`: the counts by state add up to the active jobs, and the report names a
        drained system exactly when the gate is paused and no row is active. */
    method Status() returns (report: StatusReport)
      ensures report == GateStatus(db.rows, db.GateNow())
      ensures report == StatusReport(true, 0) <==>
        ScriptPaused(db.draining) && forall j :: j in db.rows ==> !IsActive(db.rows[j].state)
    {
      var running := InState(db.rows, Starting) + InState(db.rows, Running) + InState(db.rows, Unknown);
      ActiveAddsUp(db.rows);
      assert forall j :: j in db.rows && IsActive(db.rows[j].state) <==> j in Active(db.rows);
      report := StatusReport(ScriptPaused(db.draining), running);
    }

    /** The loop of `main` for `drain`. `observe(k)` is the k-th status it reads while other
        programs go on, `clock(k)` its k-th monotonic reading; `bound` is a reading past the
        deadline, without which the loop would not end. */
    method DrainLoop(observe: nat -> StatusReport, clock: nat -> Time, timeout: Time, ghost bound: nat)
      returns (exitCode: int, k: nat)
      requires clock(bound + 1) >= clock(0) + timeout
      ensures exitCode == 0 || exitCode == 3
      ensures forall m :: 0 <= m < k ==> observe(m).activeCount != 0
      ensures forall m :: 1 <= m <= k ==> clock(m) < clock(0) + timeout
      ensures exitCode == 0 <==> observe(k).activeCount == 0
      ensures exitCode == 3 ==> clock(k + 1) >= clock(0) + timeout
    {
      var deadline := clock(0) + timeout;
      k := 0;
      while true
        invariant k <= bound
        invariant forall m :: 0 <= m < k ==> observe(m).activeCount != 0
        invariant forall m :: 1 <= m <= k ==> clock(m) < deadline
        decreases bound - k
      {
        if observe(k).activeCount == 0 {
          return 0, k;
        }
        if deadline - clock(k + 1) <= 0.0 {
          return 3, k;
        }
        k := k + 1;
      }
    }
  }

  function RowsIn(t: Table, state: JobState): set<JobId> {
    set j | j in t && t[j].state == state
  }

  /** One line of `SELECT state, COUNT(*) FROM jobs GROUP BY state`. */
  function InState(t: Table, state: JobState): nat {
    |RowsIn(t, state)|
  }

  lemma ActiveRowsIn(t: Table)
    ensures Active(t) == RowsIn(t, Starting) + RowsIn(t, Running) + RowsIn(t, Unknown)
  {
  }

  lemma ActiveAddsUp(t: Table)
    ensures InState(t, Starting) + InState(t, Running) + InState(t, Unknown) == |Active(t)|
  {
    ActiveRowsIn(t);
    DisjointCardinality(RowsIn(t, Starting), RowsIn(t, Running));
    DisjointCardinality(RowsIn(t, Starting) + RowsIn(t, Running), RowsIn(t, Unknown));
  }
}
