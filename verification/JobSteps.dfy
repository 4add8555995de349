/** Every step of one operation keeps the invariant. */
module JobSteps {
  import opened Common
  import opened JobTable
  import opened JobProtocol
  import opened JobInvariant
  import opened JobControl

  // ---------------------------------------------- the operation after a write

  lemma ExpiredOpOk(s: Sys, n: Sys, op: Op, now: Time)
    requires OpOk(s, op) && OpOk(n, op) && op.pc.ExpireWrite? && n.frozen == s.frozen
    requires op.job in s.rows && RowOk(s, op.job, s.rows[op.job])
    requires n.rows == Write(s.rows, op, now).0 && Write(s.rows, op, now).1
    ensures OpOk(n, AfterWrite(op, true)) && !PreDispatch(AfterWrite(op, true).pc)
  {
    StatusFromOk(n, op.(v := op.v.(state := Expired)));
  }

  lemma PolledOpOk(s: Sys, n: Sys, op: Op, now: Time)
    requires OpOk(s, op) && OpOk(n, op) && op.pc.PollWrite? && n.frozen == s.frozen
    requires LogOk(s)
    requires op.job in s.rows ==> RowOk(s, op.job, s.rows[op.job])
    requires n.rows == Write(s.rows, op, now).0
    ensures OpOk(n, AfterWrite(op, Write(s.rows, op, now).1))
    ensures !PreDispatch(AfterWrite(op, Write(s.rows, op, now).1).pc)
  {
    var reply, verdict := op.pc.reply, op.pc.verdict;
    if Write(s.rows, op, now).1 {
      PollDoneOk(n, op, Report(verdict, reply.exit, PollOutput(op, reply)));
    } else if IsFinal(verdict) && op.job in s.rows {
      OwnedIsFrozen(s, op.job, op.v.native.value);
      assert !s.rows[op.job].state.Prepared?;
    }
  }

  /** The writes after which the operation only moves on. */
  predicate PlainWrite(pc: Pc) {
    pc.FailWrite? || pc.AckWrite? || pc.AckError? || pc.AckCancelled? || pc.StaleWrite? || pc.ErrorWrite?
  }

  lemma PlainOpOk(n: Sys, op: Op, changed: bool)
    requires OpOk(n, op) && PlainWrite(op.pc)
    ensures OpOk(n, AfterWrite(op, changed)) && !PreDispatch(AfterWrite(op, changed).pc)
  {
  }

  lemma AdoptingOpOk(n: Sys, op: Op, changed: bool)
    requires OpOk(n, op) && op.pc.AdoptLoop?
    ensures OpOk(n, AfterWrite(op, changed)) && !PreDispatch(AfterWrite(op, changed).pc)
  {
  }

  lemma CancelledOpOk(s: Sys, n: Sys, op: Op, now: Time)
    requires OpOk(s, op) && OpOk(n, op) && op.pc.CancelWrite? && n.frozen == s.frozen
    requires op.job in s.rows ==> RowOk(s, op.job, s.rows[op.job])
    requires n.rows == Write(s.rows, op, now).0
    ensures OpOk(n, AfterWrite(op, Write(s.rows, op, now).1))
    ensures !PreDispatch(AfterWrite(op, Write(s.rows, op, now).1).pc)
  {
  }

  lemma TimedOutOpOk(s: Sys, n: Sys, op: Op, now: Time)
    requires OpOk(s, op) && OpOk(n, op) && op.pc.TimeoutWrite? && n.frozen == s.frozen
    requires op.job in s.rows ==> RowOk(s, op.job, s.rows[op.job])
    requires n.rows == Write(s.rows, op, now).0
    ensures OpOk(n, AfterWrite(op, Write(s.rows, op, now).1))
    ensures !PreDispatch(AfterWrite(op, Write(s.rows, op, now).1).pc)
  {
  }

  lemma AfterWriteOk(s: Sys, n: Sys, op: Op, now: Time)
    requires OpOk(s, op) && OpOk(n, op) && Writes(op.pc) && n.frozen == s.frozen
    requires LogOk(s)
    requires op.job in s.rows ==> RowOk(s, op.job, s.rows[op.job])
    requires n.rows == Write(s.rows, op, now).0
    ensures OpOk(n, AfterWrite(op, Write(s.rows, op, now).1))
    ensures !PreDispatch(AfterWrite(op, Write(s.rows, op, now).1).pc)
  {
    var changed := Write(s.rows, op, now).1;
    if op.pc.ExpireWrite? {
      if changed { ExpiredOpOk(s, n, op, now); }
    } else if op.pc.PollWrite? {
      PolledOpOk(s, n, op, now);
    } else if op.pc.CancelWrite? {
      CancelledOpOk(s, n, op, now);
    } else if op.pc.TimeoutWrite? {
      TimedOutOpOk(s, n, op, now);
    } else if op.pc.AdoptLoop? {
      AdoptingOpOk(n, op, changed);
    } else {
      PlainOpOk(n, op, changed);
    }
  }

  // ------------------------------------------------ the operation after begin

  lemma StatusBegunOk(n: Sys, op: Op, secret: Hash, now: Time)
    requires OpOk(n, op)
    requires op.job in n.rows ==> RowOk(n, op.job, n.rows[op.job])
    ensures OpOk(n, BeginStatus(n.rows, op, secret, now))
    ensures !PreDispatch(BeginStatus(n.rows, op, secret, now).pc)
  {
    if op.job in n.rows {
      ReadRowOk(n, op);
      StatusFromOk(n, op.(v := ReadRow(n.rows[op.job])));
    }
  }

  lemma CancelBegunOk(n: Sys, op: Op, secret: Hash)
    requires OpOk(n, op) && op.call.Cancel?
    requires op.job in n.rows ==> RowOk(n, op.job, n.rows[op.job])
    ensures OpOk(n, BeginCancel(n.rows, op, secret))
    ensures !PreDispatch(BeginCancel(n.rows, op, secret).pc)
  {
    if op.job in n.rows {
      ReadRowOk(n, op);
      CancelFromOk(n, op.(v := ReadRow(n.rows[op.job])));
    }
  }

  lemma BegunOk(lim: Limits, n: Sys, op: Op, now: Time, directoryOk: bool)
    requires OpOk(n, op) && op.pc.Begin? && !op.call.Start?
    requires op.job in n.rows ==> RowOk(n, op.job, n.rows[op.job])
    ensures OpOk(n, BeginStep(lim, n.gate, n.rows, op, now, directoryOk).op)
    ensures !PreDispatch(BeginStep(lim, n.gate, n.rows, op, now, directoryOk).op.pc)
  {
    match op.call
    case Start(_, _) =>
    case Status(secret) => StatusBegunOk(n, op, secret, now);
    case Cancel(secret) => CancelBegunOk(n, op, secret);
    case Maintain(sweep) =>
      if op.job in n.rows {
        ReadRowOk(n, op);
        MaintainFromOk(n, op.(v := ReadRow(n.rows[op.job])), sweep);
      }
  }

  /** What the reply of an admission says about the row it leaves behind. */
  ghost predicate ReplyFits(before: Table, after: Table, j: JobId, caller: Hash, reply: AdmitReply) {
    match reply
    case Existing(r) => j in after && after[j] == r
    case ExpiredNow(r) => j in after && after[j] == r
    case Admitted(command, workdir) =>
      && j in before && j in after
      && before[j].state.Prepared? && before[j].command == Some(command) && before[j].workdir == workdir
      && after[j].state.Starting? && after[j].owner == caller
    case _ => after == before
  }

  lemma AdmitReplyFits(lim: Limits, t: Table, a: Admission)
    ensures ReplyFits(t, Admit(lim, t, a).0, a.job, a.caller, Admit(lim, t, a).1)
  {
  }

  lemma StartedOk(s: Sys, n: Sys, op: Op, reply: AdmitReply)
    requires OpOk(n, op) && op.pc.Begin? && op.call.Start?
    requires n.frozen == s.frozen && n.launched == s.launched
    requires op.job in s.rows ==> RowOk(s, op.job, s.rows[op.job])
    requires op.job in n.rows ==> RowOk(n, op.job, n.rows[op.job])
    requires ReplyFits(s.rows, n.rows, op.job, op.call.caller, reply)
    ensures OpOk(n, AfterAdmit(op, op.call.caller, reply))
    ensures PreDispatch(AfterAdmit(op, op.call.caller, reply).pc) ==>
      Claim(n, op) && s.rows[op.job].state.Prepared?
  {
    if op.job in n.rows {
      ReadRowOk(n, op);
    }
  }
}
