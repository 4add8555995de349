/** From the native side's answer to the row: what an acknowledgement and what a reply to a
    poll lead to, whatever happens between the answer and the write. */
module JobOutcomes {
  import opened Common
  import opened JobTable
  import opened JobProtocol
  import opened JobEvents
  import opened JobMoves
  import opened JobAnswers

  // ----------------------------------------------------------- acknowledgements

  lemma AckMoves(lim: Limits, s: Sys, e: Event, n: Sys)
    requires Follows(lim, s, e, n) && e.StepEvent? && s.ops[e.id].pc.AwaitAck?
    ensures e.id in n.ops && n.ops[e.id].job == s.ops[e.id].job
    ensures n.ops[e.id].pc ==
      if e.reply.Interrupted? then AckCancelled else if e.reply.Acked? then AckWrite(e.reply.handle) else AckError
  {
  }

  lemma AckWrites(lim: Limits, s: Sys, e: Event, n: Sys)
    requires Follows(lim, s, e, n) && e.StepEvent?
    requires s.ops[e.id].pc.AckWrite? || s.ops[e.id].pc.AckError? || s.ops[e.id].pc.AckCancelled?
    ensures var op, t := s.ops[e.id], s.rows;
      && n.rows == (
        if op.job !in t || !t[op.job].state.Starting? then t
        else if op.pc.AckWrite? then
          t[op.job := t[op.job].(state := Running, native := Some(op.pc.handle), updated := e.now)]
        else t[op.job := t[op.job].(state := Unknown, updated := e.now)])
      && e.id in n.ops && n.ops[e.id].pc == if op.pc.AckCancelled? then Raised else ReadBack
  {
    WritingStepNext(lim, s, e.id, e.now, e.reply);
  }

  /** In every run: the answer to the `terminal` request that `start` waits for is stored by
      its next step, if the row is still `starting`. An acknowledgement makes the row
      `running` with just that process; a failure, a timeout or a cancelled caller makes it
      `unknown` without one. A row that has moved on in the meantime is left alone. */
  lemma AckIsStored(lim: Limits, ss: seq<Sys>, es: seq<Event>, b: nat, c: nat, id: OpId)
    requires IsRun(lim, ss, es) && b < c < |es| && NextStep(ss, es, b, c, id) && ss[b].ops[id].pc.AwaitAck?
    ensures var j, t, reply := ss[b].ops[id].job, ss[c].rows, es[b].reply;
      && ss[c + 1].rows == (
        if j !in t || !t[j].state.Starting? then t
        else if reply.Acked? then t[j := t[j].(state := Running, native := Some(reply.handle), updated := es[c].now)]
        else t[j := t[j].(state := Unknown, updated := es[c].now)])
      && id in ss[c + 1].ops && ss[c + 1].ops[id].pc == if reply.Interrupted? then Raised else ReadBack
  {
    assert Follows(lim, ss[b], es[b], ss[b + 1]);
    AckMoves(lim, ss[b], es[b], ss[b + 1]);
    WaitsUnchanged(lim, ss, es, b, c, id);
    assert Follows(lim, ss[c], es[c], ss[c + 1]);
    AckWrites(lim, ss[c], es[c], ss[c + 1]);
  }

  // --------------------------------------------------------------------- polls

  predicate SaysEnded(r: PollReply) {
    r.status.Exited? || r.status.Completed? || r.status.Killed? || r.status.CancelledByHost?
  }

  predicate SaysKilled(r: PollReply) {
    r.status.Killed? || r.status.CancelledByHost? || r.killReason || r.killSource
  }

  /** The state that a reply stands for, condition by condition. */
  predicate StandsFor(r: PollReply, state: JobState) {
    && (state.Succeeded? <==> SaysEnded(r) && !SaysKilled(r) && r.exit == Some(0))
    && (state.Failed? <==> SaysEnded(r) && !SaysKilled(r) && r.exit.Some? && r.exit != Some(0))
    && (state.TimedOut? || state.Cancelled? <==> SaysEnded(r) && SaysKilled(r))
    && (state.Running? <==> r.status.StillRunning? || r.status.StillStarting?)
    && (state.Unknown? <==>
          || r.status.OtherStatus?
          || (SaysEnded(r) && !SaysKilled(r) && r.exit.None?))
  }

  predicate Flagged(t: Table, j: JobId) {
    j in t && t[j].timeoutRequested
  }

  lemma PollMoves(lim: Limits, s: Sys, e: Event, n: Sys)
    requires Follows(lim, s, e, n) && e.StepEvent? && s.ops[e.id].pc.AwaitPoll? && e.reply.Polled?
    ensures var op, r := s.ops[e.id], e.reply.reply;
      && e.id in n.ops && n.ops[e.id].(pc := op.pc) == op
      && (if SaysEnded(r) && SaysKilled(r) then n.ops[e.id].pc == PollFlag(r)
          else n.ops[e.id].pc.PollWrite? && n.ops[e.id].pc.reply == r && StandsFor(r, n.ops[e.id].pc.verdict))
  {
  }

  /** A killed job is `timed_out` if its flag is found set, otherwise `cancelled`. */
  lemma FlagMoves(lim: Limits, s: Sys, e: Event, n: Sys)
    requires Follows(lim, s, e, n) && e.StepEvent? && s.ops[e.id].pc.PollFlag?
    requires SaysEnded(s.ops[e.id].pc.reply) && SaysKilled(s.ops[e.id].pc.reply)
    ensures var op := s.ops[e.id];
      && e.id in n.ops
      && n.ops[e.id] == op.(pc := PollWrite(op.pc.reply, if Flagged(s.rows, op.job) then TimedOut else Cancelled))
  {
  }

  /** The write of a verdict and what its caller is told. */
  lemma VerdictWrites(lim: Limits, s: Sys, e: Event, n: Sys)
    requires Follows(lim, s, e, n) && e.StepEvent? && s.ops[e.id].pc.PollWrite?
    requires s.ops[e.id].job in s.rows && IsActive(s.rows[s.ops[e.id].job].state)
    ensures var op, j := s.ops[e.id], s.ops[e.id].job;
      && e.id in n.ops && j in n.rows
      && n.rows == s.rows[j := s.rows[j].(state := op.pc.verdict, exit := op.pc.reply.exit,
                                          output := n.rows[j].output, updated := e.now)]
      && (if op.pc.reply.output != "" then LastOf(n.rows[j].output, op.pc.reply.output, 6000)
          else n.rows[j].output == op.v.lastOutput)
      && (op.call.Status? || op.call.Cancel? ==> Shows(n.ops[e.id].pc, n.rows[j]))
  {
    WritingStepNext(lim, s, e.id, e.now, e.reply);
  }

  /** The row and the report after the write at `c` of the reply `r` got at `b`, for an
      operation that knew `lastOutput` before. */
  ghost predicate Concluded(s: Sys, e: Event, n: Sys, op: Op, r: PollReply)
    requires op.job in s.rows && e.StepEvent? && e.id in n.ops
  {
    var j := op.job;
    && j in n.rows && StandsFor(r, n.rows[j].state)
    && n.rows == s.rows[j := s.rows[j].(state := n.rows[j].state, exit := r.exit, output := n.rows[j].output,
                                        updated := e.now)]
    && (if r.output != "" then LastOf(n.rows[j].output, r.output, 6000) else n.rows[j].output == op.v.lastOutput)
    && (op.call.Status? || op.call.Cancel? ==> Shows(n.ops[e.id].pc, n.rows[j]))
  }

  /** In every run: a reply to a poll without kill marker is written by the operation's next
      step. If the row is active then, it becomes `succeeded` for the exit code 0, `failed`
      for another one, `running` while the process runs, and `unknown` otherwise; and
      `status` and `cancel` answer with that row. */
  lemma ReplyIsWritten(lim: Limits, ss: seq<Sys>, es: seq<Event>, b: nat, c: nat, id: OpId)
    requires IsRun(lim, ss, es) && b < c < |es| && NextStep(ss, es, b, c, id)
    requires ss[b].ops[id].pc.AwaitPoll? && es[b].reply.Polled?
    requires !(SaysEnded(es[b].reply.reply) && SaysKilled(es[b].reply.reply))
    requires ss[b].ops[id].job in ss[c].rows && IsActive(ss[c].rows[ss[b].ops[id].job].state)
    ensures id in ss[c + 1].ops && Concluded(ss[c], es[c], ss[c + 1], ss[b].ops[id], es[b].reply.reply)
  {
    assert Follows(lim, ss[b], es[b], ss[b + 1]);
    PollMoves(lim, ss[b], es[b], ss[b + 1]);
    WaitsUnchanged(lim, ss, es, b, c, id);
    assert Follows(lim, ss[c], es[c], ss[c + 1]);
    VerdictWrites(lim, ss[c], es[c], ss[c + 1]);
  }

  /** And a reply with a kill marker is written by the step after the next, which reads the
      timeout flag: the row becomes `timed_out` if and only if the flag was set then, and
      `cancelled` otherwise. */
  lemma KillIsWritten(lim: Limits, ss: seq<Sys>, es: seq<Event>, b: nat, m: nat, c: nat, id: OpId)
    requires IsRun(lim, ss, es) && b < m < c < |es| && NextStep(ss, es, b, m, id) && NextStep(ss, es, m, c, id)
    requires ss[b].ops[id].pc.AwaitPoll? && es[b].reply.Polled?
    requires SaysEnded(es[b].reply.reply) && SaysKilled(es[b].reply.reply)
    requires ss[b].ops[id].job in ss[c].rows && IsActive(ss[c].rows[ss[b].ops[id].job].state)
    ensures id in ss[c + 1].ops && Concluded(ss[c], es[c], ss[c + 1], ss[b].ops[id], es[b].reply.reply)
    ensures var j := ss[b].ops[id].job;
      ss[c + 1].rows[j].state == if Flagged(ss[m].rows, j) then TimedOut else Cancelled
  {
    assert Follows(lim, ss[b], es[b], ss[b + 1]);
    PollMoves(lim, ss[b], es[b], ss[b + 1]);
    WaitsUnchanged(lim, ss, es, b, m, id);
    assert Follows(lim, ss[m], es[m], ss[m + 1]);
    FlagMoves(lim, ss[m], es[m], ss[m + 1]);
    WaitsUnchanged(lim, ss, es, m, c, id);
    assert Follows(lim, ss[c], es[c], ss[c + 1]);
    VerdictWrites(lim, ss[c], es[c], ss[c + 1]);
  }
}
