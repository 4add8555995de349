/** What every operation makes of what it reads and of what the native side answers, said in
    the columns of the row and in the report, event by event. */
module JobAnswers {
  import opened Common
  import opened JobTable
  import opened AdmissionGate
  import opened JobProtocol
  import opened JobInvariant
  import opened JobEvents

  /** `part` is the last `n` characters of `whole`, or all of it if it is shorter. */
  predicate LastOf(part: string, whole: string, n: nat) {
    && |part| <= |whole| && part == whole[|whole| - |part|..]
    && (|part| == n || (|part| < n && part == whole))
  }

  /** A report with the state, the exit code and the last 6000 characters of the row. */
  predicate Shows(pc: Pc, r: Row) {
    pc.Returned? && pc.report.state == r.state && pc.report.exit == r.exit && LastOf(pc.report.output, r.output, 6000)
  }

  /** The state `unknown`, with the exit code and the output that the operation last read. */
  predicate SaysUnknown(pc: Pc, op: Op) {
    && pc.Returned? && pc.report.state.Unknown? && pc.report.exit == op.v.exit
    && LastOf(pc.report.output, op.v.output, 6000)
  }

  predicate Fails(pc: Pc) {
    pc.Raised?
  }

  /** The event lets operation `op` go on, and `next` is the operation afterwards. */
  ghost predicate GoesOn(lim: Limits, s: Sys, e: Event, n: Sys, op: Op, next: Op) {
    && Follows(lim, s, e, n) && e.StepEvent? && !e.reply.Interrupted?
    && op == s.ops[e.id] && e.id in n.ops && next == n.ops[e.id]
  }

  // ------------------------------------------------------------------- start

  /** The first transaction of `start`. */
  lemma StartBegins(lim: Limits, s: Sys, e: Event, n: Sys, op: Op, next: Op)
    requires GoesOn(lim, s, e, n, op, next) && op.pc.Begin? && op.call.Start? && PayloadOnlyWhilePrepared(s.rows)
    ensures var j, t, now := op.job, s.rows, e.now;
      if j !in t || t[j].credential != op.call.secret then n.rows == t && Fails(next.pc)
      else if !t[j].state.Prepared? then n.rows == t && Shows(next.pc, t[j])
      else if t[j].expires <= now then
        n.rows == t[j := t[j].(state := Expired, command := None, updated := now)] && Shows(next.pc, n.rows[j])
      else if GatewayPaused(s.gate.draining) || |Active(t)| >= lim.maxActive
              || |ActiveOf(t, op.call.caller)| >= lim.maxPerSession || !e.reply.directoryOk
              || exists i :: i in t && IsActive(t[i].state) && Overlap(t[j].workdir, t[i].workdir) then
        n.rows == t && Fails(next.pc)
      else
        && n.rows == t[j := t[j].(state := Starting, owner := op.call.caller, updated := now, command := None,
                                  deadline := now + t[j].maxRuntime as real)]
        && next.pc == Revalidate(Launch(j, t[j].command.value, t[j].workdir, op.call.caller))
  {
    assert forall i :: i in Active(s.rows) <==> i in s.rows && IsActive(s.rows[i].state);
  }

  /** Between the admission and the dispatch. */
  lemma StartDispatches(lim: Limits, s: Sys, e: Event, n: Sys, op: Op, next: Op)
    requires GoesOn(lim, s, e, n, op, next)
    ensures op.pc.Revalidate? ==>
      && n.rows == s.rows && n.log == s.log
      && next.pc == if e.reply.Proceed? && e.reply.directoryOk then Dispatch(op.pc.launch) else FailWrite
    ensures op.pc.FailWrite? ==>
      && Fails(next.pc) && n.log == s.log
      && n.rows == if op.job in s.rows && s.rows[op.job].state.Starting?
         then s.rows[op.job := s.rows[op.job].(state := Failed, command := None, updated := e.now)] else s.rows
    ensures op.pc.Dispatch? ==> n.rows == s.rows && n.log == s.log + [op.pc.launch] && next.pc.AwaitAck?
  {
  }

  /** After its acknowledgement `start` answers with the row as it stands. */
  lemma StartReadsBack(lim: Limits, s: Sys, e: Event, n: Sys, op: Op, next: Op)
    requires GoesOn(lim, s, e, n, op, next) && op.pc.ReadBack?
    ensures n.rows == s.rows
    ensures if op.job in s.rows then Shows(next.pc, s.rows[op.job])
            else SaysUnknown(next.pc, op)
  {
  }

  // ------------------------------------------------------------------ status

  /** `status` on a row it has read: adopt, poll or answer. */
  predicate Inspects(next: Op, r: Row, native: Option<ProcId>) {
    if (r.state.Starting? || r.state.Unknown?) && native.None? then next.pc.AwaitList?
    else if (r.state.Running? || r.state.Unknown?) && native.Some? then
      next.pc.AwaitPoll? && next.v.native == native && next.v.lastOutput == r.output
    else Shows(next.pc, r)
  }

  lemma StatusBegins(lim: Limits, s: Sys, e: Event, n: Sys, op: Op, next: Op)
    requires GoesOn(lim, s, e, n, op, next) && op.pc.Begin? && op.call.Status?
    ensures n.rows == s.rows
    ensures var j, t := op.job, s.rows;
      if j !in t || t[j].credential != op.call.secret then Fails(next.pc)
      else if t[j].state.Prepared? then
        if t[j].expires <= e.now then next.pc.ExpireWrite? else Shows(next.pc, t[j])
      else Inspects(next, t[j], t[j].native)
  {
  }

  /** An expired preparation is recorded as such, unless it has changed meanwhile. */
  lemma StatusExpires(lim: Limits, s: Sys, e: Event, n: Sys, op: Op, next: Op)
    requires GoesOn(lim, s, e, n, op, next) && op.pc.ExpireWrite? && OpsOk(s) && RowsOk(s)
    ensures if op.job in s.rows && s.rows[op.job].state.Prepared? then
        && n.rows == s.rows[op.job := s.rows[op.job].(state := Expired, command := None, updated := e.now)]
        && Shows(next.pc, n.rows[op.job])
      else n.rows == s.rows && next.pc.ExpireRead?
  {
    assert OpOk(s, s.ops[e.id]);
    assert op.job in s.rows ==> RowOk(s, op.job, s.rows[op.job]);
  }

  lemma StatusReadsAgain(lim: Limits, s: Sys, e: Event, n: Sys, op: Op, next: Op)
    requires GoesOn(lim, s, e, n, op, next) && op.pc.ExpireRead? && op.job in s.rows
    ensures n.rows == s.rows && Inspects(next, s.rows[op.job], s.rows[op.job].native)
  {
  }

  // ------------------------------------------------------------------ cancel

  /** `cancel` on a row it has read that is not prepared. */
  predicate Stops(next: Op, r: Row) {
    if IsFinal(r.state) then Shows(next.pc, r)
    else if r.native.Some? then next.pc.AwaitKill? && next.v.native == r.native
    else if r.state.Starting? || r.state.Unknown? then next.pc.AwaitList?
    else next.pc.ErrorWrite?
  }

  lemma CancelBegins(lim: Limits, s: Sys, e: Event, n: Sys, op: Op, next: Op)
    requires GoesOn(lim, s, e, n, op, next) && op.pc.Begin? && op.call.Cancel?
    ensures n.rows == s.rows
    ensures var j, t := op.job, s.rows;
      if j !in t || t[j].credential != op.call.secret then Fails(next.pc)
      else if t[j].state.Prepared? then next.pc.CancelWrite?
      else Stops(next, t[j])
  {
  }

  /** A prepared job is cancelled at once and for good. */
  lemma CancelBeforeStart(lim: Limits, s: Sys, e: Event, n: Sys, op: Op, next: Op)
    requires GoesOn(lim, s, e, n, op, next) && op.pc.CancelWrite?
    ensures if op.job in s.rows && s.rows[op.job].state.Prepared? then
        && n.rows == s.rows[op.job := s.rows[op.job].(state := Cancelled, command := None, updated := e.now)]
        && next.pc.Returned? && next.pc.report.state.Cancelled?
      else n.rows == s.rows && next.pc.CancelRead?
  {
  }

  lemma CancelReadsAgain(lim: Limits, s: Sys, e: Event, n: Sys, op: Op, next: Op)
    requires GoesOn(lim, s, e, n, op, next) && op.pc.CancelRead?
    ensures n.rows == s.rows
    ensures if op.job in s.rows then (!s.rows[op.job].state.Prepared? ==> Stops(next, s.rows[op.job]))
            else SaysUnknown(next.pc, op)
  {
  }

  // -------------------------------------------------------------- reconciling

  lemma BeginsWith(lim: Limits, s: Sys, e: Event, n: Sys, op: Op, next: Op)
    requires GoesOn(lim, s, e, n, op, next) && op.pc.Begin? && !op.call.Start?
    ensures var o := BeginStep(lim, s.gate, s.rows, op, e.now, e.reply.Proceed? && e.reply.directoryOk);
      n.rows == o.rows && next == o.op
  {
  }

  /** What `_maintain_one` does with the row it finds. */
  predicate Reconciles(next: Op, t: Table, j: JobId, sweep: Time) {
    if j !in t || !IsActive(t[j].state) then next.pc.Finished?
    else if t[j].native.Some? then
      next.pc.AwaitPoll? && next.v.native == t[j].native && next.v.lastOutput == t[j].output
    else if t[j].state.Starting? && sweep - t[j].updated < 60.0 then next.pc.Finished?
    else next.pc.AwaitList?
  }

  lemma MaintainLooks(lim: Limits, gate: Gate, t: Table, op: Op, now: Time, directoryOk: bool)
    requires op.pc.Begin? && op.call.Maintain?
    ensures var o := BeginStep(lim, gate, t, op, now, directoryOk);
      o.rows == t && Reconciles(o.op, t, op.job, op.call.now)
  {
  }

  /** The lookup and the first decision of `_maintain_one`. */
  lemma MaintainBegins(lim: Limits, s: Sys, e: Event, n: Sys, op: Op, next: Op)
    requires GoesOn(lim, s, e, n, op, next) && op.pc.Begin? && op.call.Maintain?
    ensures n.rows == s.rows && Reconciles(next, s.rows, op.job, op.call.now)
  {
    BeginsWith(lim, s, e, n, op, next);
    MaintainLooks(lim, s.gate, s.rows, op, e.now, e.reply.Proceed? && e.reply.directoryOk);
  }

  /** An overdue job that still runs gets its timeout requested, then the kill. */
  lemma MaintainTimesOut(lim: Limits, s: Sys, e: Event, n: Sys, op: Op, next: Op)
    requires GoesOn(lim, s, e, n, op, next) && op.call.Maintain?
    ensures op.pc.PollWrite? && op.pc.verdict.Running? && op.job in s.rows && IsActive(s.rows[op.job].state) ==>
      (next.pc.TimeoutWrite? <==> !op.v.killed && op.v.deadline < op.call.now)
      && (next.pc.TimeoutWrite? || next.pc.Finished?)
    ensures op.pc.TimeoutWrite? ==>
      if op.job in s.rows && IsActive(s.rows[op.job].state) then
        && n.rows == s.rows[op.job := s.rows[op.job].(timeoutRequested := true, updated := e.now)]
        && next.pc.AwaitKill? && next.v.killed
      else n.rows == s.rows && next.pc.Finished?
  {
  }

  /** A start without a process after a minute becomes `unknown`. */
  lemma MaintainGivesUp(lim: Limits, s: Sys, e: Event, n: Sys, op: Op, next: Op)
    requires GoesOn(lim, s, e, n, op, next) && op.call.Maintain?
    ensures op.pc == AfterAdopt(None) ==>
      && n.rows == s.rows
      && (next.pc.StaleWrite? <==> op.v.state.Starting? && op.call.now - op.v.updated >= 60.0)
      && (next.pc.StaleWrite? || next.pc.Finished?)
    ensures op.pc.StaleWrite? ==>
      && next.pc.Finished?
      && n.rows == if op.job in s.rows && s.rows[op.job].state.Starting?
         then s.rows[op.job := s.rows[op.job].(state := Unknown, updated := e.now)] else s.rows
  {
  }

  // --------------------------------------------------------- adopt, kill, fail

  lemma AfterListing(lim: Limits, s: Sys, e: Event, n: Sys, op: Op, next: Op)
    requires GoesOn(lim, s, e, n, op, next) && op.pc.AwaitList?
    ensures n.rows == s.rows
    ensures next.pc == if e.reply.Listed? then AdoptLoop(e.reply.handles) else AfterAdopt(None)
  {
  }

  /** A listing is tried in order, and the first process that the row takes is adopted. */
  lemma AdoptsInOrder(lim: Limits, s: Sys, e: Event, n: Sys, op: Op, next: Op)
    requires GoesOn(lim, s, e, n, op, next) && op.pc.AdoptLoop?
    ensures var found := op.pc.found;
      if found == [] then n.rows == s.rows && next.pc == AfterAdopt(None)
      else if op.job in s.rows && IsActive(s.rows[op.job].state) then
        && n.rows == s.rows[op.job := s.rows[op.job].(state := Running, native := Some(found[0]), updated := e.now)]
        && next.pc == AfterAdopt(Some(found[0]))
      else n.rows == s.rows && next.pc == AdoptLoop(found[1..])
  {
    WritingStepNext(lim, s, e.id, e.now, e.reply);
  }

  /** The row is read again after an adoption; the stored process comes first. */
  lemma AfterAdoption(lim: Limits, s: Sys, e: Event, n: Sys, op: Op, next: Op)
    requires GoesOn(lim, s, e, n, op, next) && op.pc.AfterAdopt? && op.job in s.rows
    ensures n.rows == s.rows
    ensures var r, adopted := s.rows[op.job], op.pc.adopted;
      var native := if r.native.Some? then r.native else adopted;
      && (op.call.Status? ==>
            if (r.state.Running? || r.state.Unknown?) && native.Some? then
              next.pc.AwaitPoll? && next.v.native == native && next.v.lastOutput == r.output
            else Shows(next.pc, r))
      && (op.call.Cancel? ==>
            if IsFinal(r.state) then Shows(next.pc, r)
            else if native.Some? then next.pc.AwaitKill? && next.v.native == native
            else next.pc.ErrorWrite?)
      && (op.call.Maintain? && adopted.Some? ==> next.pc.AwaitPoll? && next.v.native == adopted)
  {
  }

  /** A kill that was answered is followed by a poll. */
  lemma AfterKill(lim: Limits, s: Sys, e: Event, n: Sys, op: Op, next: Op)
    requires GoesOn(lim, s, e, n, op, next) && op.pc.AwaitKill?
    ensures n.rows == s.rows && next.v.native == op.v.native
    ensures if e.reply.KillSent? then next.pc.AwaitPoll? else next.pc.ErrorWrite?
  {
  }

  lemma AfterFailedPoll(lim: Limits, s: Sys, e: Event, n: Sys, op: Op, next: Op)
    requires GoesOn(lim, s, e, n, op, next) && op.pc.AwaitPoll? && e.reply.Fails?
    ensures n.rows == s.rows && next.pc.ErrorWrite?
  {
  }

  /** A failed poll or kill leaves an active job `unknown`. */
  lemma NativeFailure(lim: Limits, s: Sys, e: Event, n: Sys, op: Op, next: Op)
    requires GoesOn(lim, s, e, n, op, next) && op.pc.ErrorWrite?
    ensures if op.job in s.rows && IsActive(s.rows[op.job].state) then
        && n.rows == s.rows[op.job := s.rows[op.job].(state := Unknown, updated := e.now)]
        && (if op.call.Maintain? then next.pc.Finished? else SaysUnknown(next.pc, op))
      else
        && n.rows == s.rows && (if op.call.Maintain? then next.pc.Finished? else next.pc.ErrorRead?)
  {
  }

  lemma FailureReadsAgain(lim: Limits, s: Sys, e: Event, n: Sys, op: Op, next: Op)
    requires GoesOn(lim, s, e, n, op, next) && op.pc.ErrorRead?
    ensures n.rows == s.rows
    ensures if op.job in s.rows && (op.call.Cancel? || IsFinal(s.rows[op.job].state)) then Shows(next.pc, s.rows[op.job])
            else SaysUnknown(next.pc, op)
  {
  }

  /** A verdict that finds its row no longer active is not written, and the row is read. */
  lemma VerdictComesTooLate(lim: Limits, s: Sys, e: Event, n: Sys, op: Op, next: Op)
    requires GoesOn(lim, s, e, n, op, next) && op.pc.PollWrite?
    requires !(op.job in s.rows && IsActive(s.rows[op.job].state))
    ensures n.rows == s.rows && next.pc == PollRead(op.pc.reply, op.pc.verdict) && next.v == op.v
  {
    WritingStepNext(lim, s, e.id, e.now, e.reply);
  }

  /** Then a final row is the answer, whatever the poll said; otherwise the poll is. */
  lemma PollReadsAgain(lim: Limits, s: Sys, e: Event, n: Sys, op: Op, next: Op)
    requires GoesOn(lim, s, e, n, op, next) && op.pc.PollRead?
    ensures n.rows == s.rows
    ensures var final := op.job in s.rows && IsFinal(s.rows[op.job].state);
      && (op.call.Status? || op.call.Cancel? ==>
            if final then Shows(next.pc, s.rows[op.job])
            else next.pc.Returned? && next.pc.report.state == op.pc.verdict && next.pc.report.exit == op.pc.reply.exit)
      && (op.call.Maintain? && final ==> next.pc.Finished?)
  {
  }

  /** A cancellation of the caller changes no row and dispatches nothing by itself; only after
      a dispatch there is something left to write. */
  lemma CallerIsCancelled(lim: Limits, s: Sys, e: Event, n: Sys)
    requires Follows(lim, s, e, n) && e.StepEvent? && e.reply.Interrupted?
    ensures n.rows == s.rows && n.log == s.log && e.id in n.ops
    ensures n.ops[e.id].pc == if s.ops[e.id].pc.AwaitAck? then AckCancelled else Raised
  {
  }
}
