/** The part of a step that moves an operation keeps what is known about it. */
module JobControl {
  import opened Common
  import opened JobTable
  import opened JobProtocol
  import opened JobInvariant

  lemma ReadRowOk(s: Sys, op: Op)
    requires op.job in s.rows && RowOk(s, op.job, s.rows[op.job])
    ensures LocalsOk(s, op.(v := ReadRow(s.rows[op.job])))
    ensures Told(s, op.job, ReportRow(s.rows[op.job]))
  {
  }

  lemma StatusPollOk(s: Sys, op: Op)
    requires LocalsOk(s, op)
    ensures OpOk(s, StatusPoll(op)) && !PreDispatch(StatusPoll(op).pc)
  {
  }

  lemma StatusFromOk(s: Sys, op: Op)
    requires LocalsOk(s, op)
    ensures OpOk(s, StatusFrom(op)) && !PreDispatch(StatusFrom(op).pc)
  {
    StatusPollOk(s, op);
  }

  lemma CancelKillOk(s: Sys, op: Op)
    requires LocalsOk(s, op) && op.call.Cancel?
    ensures OpOk(s, CancelKill(op)) && !PreDispatch(CancelKill(op).pc)
  {
  }

  lemma CancelFromOk(s: Sys, op: Op)
    requires LocalsOk(s, op) && op.call.Cancel?
    ensures OpOk(s, CancelFrom(op)) && !PreDispatch(CancelFrom(op).pc)
  {
    CancelKillOk(s, op);
  }

  lemma MaintainFromOk(s: Sys, op: Op, now: Time)
    requires LocalsOk(s, op)
    ensures OpOk(s, MaintainFrom(op, now)) && !PreDispatch(MaintainFrom(op, now).pc)
  {
  }

  lemma PollDoneOk(s: Sys, op: Op, r: Report)
    requires LocalsOk(s, op) && op.v.native.Some?
    requires IsFinal(r.state) ==> Told(s, op.job, r.(output := Tail(r.output, MAX_OUTPUT)))
    ensures OpOk(s, PollDone(op, r)) && !PreDispatch(PollDone(op, r).pc)
  {
  }

  lemma AdoptedOk(s: Sys, op: Op, adopted: Option<ProcId>)
    requires OpOk(s, op) && op.pc == AfterAdopt(adopted)
    requires op.job in s.rows ==> RowOk(s, op.job, s.rows[op.job])
    ensures OpOk(s, Adopted(op, s.rows, adopted)) && !PreDispatch(Adopted(op, s.rows, adopted).pc)
  {
    var seen :=
      if op.job in s.rows then
        op.(v := ReadRow(s.rows[op.job]).(
              native := if s.rows[op.job].native.Some? then s.rows[op.job].native else adopted,
              lastOutput := if op.call.Status? then s.rows[op.job].output else op.v.lastOutput))
      else
        op.(v := op.v.(native := adopted));
    assert LocalsOk(s, seen);
    if op.call.Status? {
      StatusPollOk(s, seen);
    } else if op.call.Cancel? {
      CancelKillOk(s, seen);
    }
  }

  lemma ReadStepOk(s: Sys, op: Op)
    requires OpOk(s, op) && !Writes(op.pc) && !AtAwait(op.pc) && !PreDispatch(op.pc)
    requires op.job in s.rows ==> RowOk(s, op.job, s.rows[op.job])
    ensures OpOk(s, ReadStep(s.rows, op)) && !PreDispatch(ReadStep(s.rows, op).pc)
  {
    if op.job in s.rows {
      ReadRowOk(s, op);
    }
    match op.pc
    case ExpireRead =>
      StatusFromOk(s, if op.job in s.rows then op.(v := ReadRow(s.rows[op.job]))
                      else op.(v := op.v.(state := Unknown)));
    case CancelRead =>
      if op.job in s.rows {
        CancelFromOk(s, op.(v := ReadRow(s.rows[op.job]).(lastOutput := op.v.lastOutput)));
      }
    case AfterAdopt(adopted) => AdoptedOk(s, op, adopted);
    case PollFlag(r) =>
    case PollRead(reply, verdict) => PollReadOk(s, op, reply, verdict);
    case _ =>
  }

  lemma PollReadOk(s: Sys, op: Op, reply: PollReply, verdict: JobState)
    requires OpOk(s, op) && op.pc == PollRead(reply, verdict)
    requires op.job in s.rows ==> RowOk(s, op.job, s.rows[op.job])
    ensures OpOk(s, ReadStep(s.rows, op)) && !PreDispatch(ReadStep(s.rows, op).pc)
  {
    if op.job in s.rows && IsFinal(s.rows[op.job].state) {
      var r := s.rows[op.job];
      assert Told(s, op.job, ReportRow(r));
      PollDoneOk(s, op, Report(r.state, r.exit, r.output));
    } else {
      PollDoneOk(s, op, Report(verdict, reply.exit, PollOutput(op, reply)));
    }
  }

  lemma OwnedIsFrozen(s: Sys, j: JobId, p: ProcId)
    requires LogOk(s) && Owned(s, j, p)
    ensures j in s.frozen && j in s.launched
  {
    assert LoggedOnce(s, s.procs[p].dispatch);
  }

  lemma PolledOk(s: Sys, op: Op, reply: Resume)
    requires OpOk(s, op) && op.pc.AwaitPoll? && Fits(s, op, reply) && reply.Polled? && LogOk(s)
    ensures OpOk(s, ReplyStep(op, reply))
  {
    var p := op.v.native.value;
    OwnedIsFrozen(s, op.job, p);
    assert Terminal(reply.reply) ==> OwnedDead(s, op.job, p);
    assert Judged(s, op, reply.reply, Verdict(reply.reply, false));
  }

  lemma ReplyStepOk(s: Sys, op: Op, reply: Resume)
    requires OpOk(s, op) && AtAwait(op.pc) && Fits(s, op, reply) && !reply.Interrupted?
    requires !op.pc.Begin? && LogOk(s)
    ensures OpOk(s, ReplyStep(op, reply)) && !PreDispatch(ReplyStep(op, reply).pc)
  {
    if op.pc.AwaitPoll? && reply.Polled? {
      PolledOk(s, op, reply);
    }
  }
}
