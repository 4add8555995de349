/** What every reachable state of the job protocol satisfies. */
module JobInvariant {
  import opened Common
  import opened JobTable
  import opened JobProtocol

  // ---------------------------------------------------------------- the log

  /** Each job appears at most once in the dispatch log, with its frozen payload. */
  ghost predicate LogOk(s: Sys) {
    && (forall i :: 0 <= i < |s.log| ==> LoggedOnce(s, i))
    && (forall j :: j in s.launched ==> s.launched[j] < |s.log| && s.log[s.launched[j]].job == j)
  }

  ghost predicate LoggedOnce(s: Sys, i: nat)
    requires i < |s.log|
  {
    var l := s.log[i];
    && l.job in s.launched && s.launched[l.job] == i
    && l.job in s.frozen
    && l.command == s.frozen[l.job].request.command
    && l.workdir == s.frozen[l.job].request.workdir
  }

  /** A dispatch is undecided, lost, or has made one process. */
  ghost predicate NativeOk(s: Sys) {
    && (forall d :: d in s.pending ==> d < |s.log|)
    && (forall p :: p in s.procs ==> s.procs[p].dispatch < |s.log| && s.procs[p].dispatch !in s.pending)
    && (forall p, q :: p in s.procs && q in s.procs && s.procs[p].dispatch == s.procs[q].dispatch ==> p == q)
  }

  // -------------------------------------------------------------- each job

  /** The job's process exists and has ended, whether or not anyone has seen it. */
  ghost predicate Ended(s: Sys, j: JobId) {
    exists p :: OwnedDead(s, j, p)
  }

  /** A terminal reply to a poll of the job was taken as its end. */
  ghost predicate Seen(s: Sys, j: JobId) {
    j in s.evidence && Terminal(s.evidence[j])
  }

  /** A dispatched job is active in the table or its process has ended. */
  ghost predicate Covered(s: Sys, j: JobId) {
    (j in s.rows && IsActive(s.rows[j].state)) || Ended(s, j)
  }

  ghost predicate CoveredOk(s: Sys) {
    forall j :: j in s.launched ==> Covered(s, j)
  }

  ghost predicate EndedBy(s: Sys, j: JobId, exit: Option<int>, killed: bool) {
    && j in s.launched && j in s.evidence && Terminal(s.evidence[j])
    && KillMarked(s.evidence[j]) == killed && s.evidence[j].exit == exit
  }

  /** Why a row is in its final state. */
  ghost predicate Attributed(s: Sys, j: JobId, r: Row) {
    && (r.state.Succeeded? ==> r.exit == Some(0) && EndedBy(s, j, r.exit, false))
    && (r.state.Failed? && j in s.launched ==>
          r.exit.Some? && r.exit.value != 0 && EndedBy(s, j, r.exit, false))
    && (r.state.TimedOut? ==> r.timeoutRequested && EndedBy(s, j, r.exit, true))
    && (r.state.Cancelled? ==> j !in s.launched || EndedBy(s, j, r.exit, true))
    && (r.state.Expired? ==> j !in s.launched)
  }

  ghost predicate Frozenly(f: Frozen, r: Row) {
    && r.request == f.request && r.key == f.key
    && r.workdir == f.request.workdir && r.maxRuntime == f.request.duration
    && (r.command.Some? ==> r.command.value == f.request.command)
  }

  ghost predicate Untouched(s: Sys, j: JobId, r: Row) {
    j !in s.launched && r.exit.None? && r.output == "" && r.native.None? && !r.timeoutRequested
  }

  ghost predicate RowOk(s: Sys, j: JobId, r: Row) {
    && j in s.frozen && j !in s.retired
    && Frozenly(s.frozen[j], r)
    && |r.output| <= MAX_OUTPUT
    && (r.state.Prepared? ==> Untouched(s, j, r))
    && (r.native.Some? ==> Owned(s, j, r.native.value))
    && (j in s.launched && s.launched[j] < |s.log| ==> r.owner == s.log[s.launched[j]].caller)
    && Attributed(s, j, r)
  }

  ghost predicate RowsOk(s: Sys) {
    forall j :: j in s.rows ==> RowOk(s, j, s.rows[j])
  }

  // ---------------------------------------------------------- deleted rows

  /** Only an expired preparation or a receipt past its retention is ever deleted. */
  ghost predicate RetiredRow(s: Sys, j: JobId, d: Retired) {
    && j in s.frozen && j !in s.rows
    && d.row.key == s.frozen[j].key
    && ((d.row.state.Prepared? && d.row.expires <= d.now && j !in s.launched)
        || (IsFinal(d.row.state) && d.row.updated < d.now - RESULT_RETENTION && (j in s.launched ==> Seen(s, j))))
  }

  ghost predicate RetiredOk(s: Sys) {
    && (forall j :: j in s.retired ==> RetiredRow(s, j, s.retired[j]))
    && (forall j :: j in s.frozen ==> j in s.rows || j in s.retired)
  }

  ghost predicate SameKey(s: Sys, i: JobId, j: JobId) {
    i in s.frozen && j in s.frozen && s.frozen[i].key.Some? && s.frozen[i].key == s.frozen[j].key
  }

  ghost predicate KeysOk(s: Sys) {
    forall a, b :: 0 <= a < b < |s.log| && SameKey(s, s.log[a].job, s.log[b].job) ==>
      s.log[a].job in s.retired
  }

  // ------------------------------------------------------------- operations

  predicate PreDispatch(pc: Pc) {
    pc.Revalidate? || pc.FailWrite? || pc.Dispatch?
  }

  ghost predicate FlagSet(s: Sys, j: JobId) {
    j in s.frozen && (j in s.rows ==> s.rows[j].timeoutRequested)
  }

  /** A report agrees with the stored row, if that still exists. */
  ghost predicate Told(s: Sys, j: JobId, r: Report) {
    j in s.frozen && (j in s.rows ==> ReportRow(s.rows[j]) == r)
  }

  ghost predicate Judged(s: Sys, op: Op, r: PollReply, verdict: JobState) {
    && (verdict == Verdict(r, false) || (verdict == Verdict(r, true) && (verdict.TimedOut? ==> FlagSet(s, op.job))))
    && op.job in s.frozen && op.v.native.Some?
    && (Terminal(r) ==> OwnedDead(s, op.job, op.v.native.value))
  }

  ghost predicate LocalsOk(s: Sys, op: Op) {
    && (op.v.native.Some? ==> Owned(s, op.job, op.v.native.value))
    && |op.v.output| <= MAX_OUTPUT && |op.v.lastOutput| <= MAX_OUTPUT
    && (IsFinal(op.v.state) ==> Told(s, op.job, ReportOf(op.v)))
  }

  ghost predicate LaunchOk(s: Sys, op: Op, l: Launch) {
    && l.job == op.job && l.job in s.frozen
    && l.command == s.frozen[l.job].request.command
    && l.workdir == s.frozen[l.job].request.workdir
    && op.call.Start? && l.caller == op.call.caller
  }

  ghost predicate AtPc(s: Sys, op: Op) {
    match op.pc
    case Revalidate(l) => LaunchOk(s, op, l)
    case Dispatch(l) => LaunchOk(s, op, l)
    case AckWrite(handle) => Owned(s, op.job, handle)
    case AdoptLoop(found) => forall i :: 0 <= i < |found| ==> Owned(s, op.job, found[i])
    case AfterAdopt(adopted) => adopted.Some? ==> Owned(s, op.job, adopted.value)
    case AwaitPoll => op.v.native.Some?
    case AwaitKill => op.v.native.Some? && (op.call.Maintain? ==> FlagSet(s, op.job))
    case TimeoutWrite => op.v.native.Some? && op.call.Maintain?
    case ExpireWrite => op.v.exit.None? && op.v.output == "" && op.v.native.None? && op.job in s.frozen
    case CancelWrite => op.v.exit.None? && op.v.output == "" && op.job in s.frozen && op.call.Cancel?
    case CancelRead => op.call.Cancel?
    case PollFlag(r) => Terminal(r) && KillMarked(r) && Judged(s, op, r, Verdict(r, false))
    case PollWrite(r, verdict) => Judged(s, op, r, verdict)
    case PollRead(r, verdict) =>
      && Judged(s, op, r, verdict)
      && (IsFinal(verdict) && op.job in s.rows ==> IsFinal(s.rows[op.job].state))
    case Returned(r) => IsFinal(r.state) ==> Told(s, op.job, r)
    case _ => true
  }

  /** Facts about an operation that no step of another operation undoes. */
  ghost predicate OpOk(s: Sys, op: Op) {
    LocalsOk(s, op) && AtPc(s, op)
  }

  ghost predicate OpsOk(s: Sys) {
    forall id :: id in s.ops ==> OpOk(s, s.ops[id])
  }

  /** Between its admission and its dispatch a start owns an active, undispatched row. */
  ghost predicate Claim(s: Sys, op: Op) {
    && op.call.Start?
    && op.job in s.rows && IsActive(s.rows[op.job].state)
    && s.rows[op.job].owner == op.call.caller
    && op.job !in s.launched
  }

  predicate Rivals(a: Op, b: Op) {
    PreDispatch(a.pc) && PreDispatch(b.pc) && a.job == b.job
  }

  ghost predicate ClaimsOk(s: Sys) {
    && (forall id :: id in s.ops && PreDispatch(s.ops[id].pc) ==> Claim(s, s.ops[id]))
    && (forall a, b :: a in s.ops && b in s.ops && Rivals(s.ops[a], s.ops[b]) ==> a == b)
  }

  ghost predicate History(s: Sys) {
    LogOk(s) && NativeOk(s) && RetiredOk(s) && KeysOk(s)
  }

  ghost predicate Jobs(s: Sys) {
    CoveredOk(s) && RowsOk(s)
  }

  ghost predicate InFlight(s: Sys) {
    OpsOk(s) && ClaimsOk(s)
  }

  ghost predicate Inv(lim: Limits, s: Sys) {
    Consistent(lim, s.rows) && History(s) && Jobs(s) && InFlight(s)
  }

  // -------------------------------------------------- what never goes back

  /** How a row may differ later: the frozen part stays, a final row stays as it is,
      a row never returns to `prepared` and keeps the deadline it was started with, a timeout
      request is never withdrawn. */
  predicate Evolves(r: Row, q: Row) {
    && q.request == r.request && q.key == r.key && q.workdir == r.workdir
    && q.credential == r.credential && q.expires == r.expires && q.maxRuntime == r.maxRuntime
    && (IsFinal(r.state) ==> q == r)
    && (q.state.Prepared? ==> q == r) && (!r.state.Prepared? ==> q.deadline == r.deadline)
    && (r.timeoutRequested ==> q.timeoutRequested)
  }

  predicate Ages(p: Proc, q: Proc) {
    q.dispatch == p.dispatch && (q.alive ==> p.alive)
  }

  ghost predicate Mono(s: Sys, n: Sys) {
    && s.log <= n.log
    && (forall p :: p in s.procs ==> p in n.procs && Ages(s.procs[p], n.procs[p]))
    && (forall j :: j in s.frozen ==> j in n.frozen && n.frozen[j] == s.frozen[j])
    && (forall j :: j in s.frozen && j in n.rows ==> j in s.rows && Evolves(s.rows[j], n.rows[j]))
  }

  lemma OwnedStays(s: Sys, n: Sys, j: JobId, p: ProcId)
    requires Mono(s, n) && Owned(s, j, p)
    ensures Owned(n, j, p)
    ensures !s.procs[p].alive ==> OwnedDead(n, j, p)
  {
    assert s.log == n.log[..|s.log|];
  }

  lemma EndedStays(s: Sys, n: Sys, j: JobId)
    requires Mono(s, n) && Ended(s, j)
    ensures Ended(n, j)
  {
    var p :| OwnedDead(s, j, p);
    OwnedStays(s, n, j, p);
  }

  lemma ToldStays(s: Sys, n: Sys, j: JobId, r: Report)
    requires Mono(s, n) && Told(s, j, r) && IsFinal(r.state)
    ensures Told(n, j, r)
  {
  }

  lemma OpStays(s: Sys, n: Sys, op: Op)
    requires Mono(s, n) && OpOk(s, op)
    ensures OpOk(n, op)
  {
    if op.v.native.Some? {
      OwnedStays(s, n, op.job, op.v.native.value);
    }
    if IsFinal(op.v.state) {
      ToldStays(s, n, op.job, ReportOf(op.v));
    }
    AtPcStays(s, n, op);
  }

  lemma AtPcStays(s: Sys, n: Sys, op: Op)
    requires Mono(s, n) && AtPc(s, op)
    ensures AtPc(n, op)
  {
    match op.pc
    case AckWrite(handle) => OwnedStays(s, n, op.job, handle);
    case AdoptLoop(found) =>
      forall i | 0 <= i < |found| ensures Owned(n, op.job, found[i]) {
        OwnedStays(s, n, op.job, found[i]);
      }
    case AfterAdopt(adopted) =>
      if adopted.Some? { OwnedStays(s, n, op.job, adopted.value); }
    case PollFlag(r) => JudgedStays(s, n, op, r, Verdict(r, false));
    case PollWrite(r, verdict) => JudgedStays(s, n, op, r, verdict);
    case PollRead(r, verdict) => JudgedStays(s, n, op, r, verdict);
    case Returned(r) => if IsFinal(r.state) { ToldStays(s, n, op.job, r); }
    case _ =>
  }

  lemma JudgedStays(s: Sys, n: Sys, op: Op, r: PollReply, verdict: JobState)
    requires Mono(s, n) && Judged(s, op, r, verdict)
    ensures Judged(n, op, r, verdict)
  {
    if Terminal(r) {
      OwnedStays(s, n, op.job, op.v.native.value);
    }
  }

  /** A row that did not change keeps its invariant while the rest moves on. */
  lemma RowStays(s: Sys, n: Sys, j: JobId)
    requires Mono(s, n) && j in s.rows && RowOk(s, j, s.rows[j])
    requires j !in n.retired
    requires j in n.launched <==> j in s.launched
    requires j in s.launched ==> s.launched[j] < |s.log| && n.launched[j] == s.launched[j]
    requires j in s.evidence ==> j in n.evidence && n.evidence[j] == s.evidence[j]
    ensures RowOk(n, j, s.rows[j])
  {
    assert s.log == n.log[..|s.log|];
    var r := s.rows[j];
    if r.native.Some? {
      OwnedStays(s, n, j, r.native.value);
    }
  }
}
