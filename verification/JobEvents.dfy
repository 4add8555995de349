/** Every event keeps the invariant, so every run does. */
module JobEvents {
  import opened Common
  import opened JobTable
  import opened AdmissionGate
  import opened JobProtocol
  import opened JobInvariant
  import opened JobControl
  import opened JobWrites
  import opened JobSteps
  import opened JobSafety

  // -------------------------------------------------------- operation steps

  lemma WriteKeepsConsistent(lim: Limits, s: Sys, op: Op, now: Time)
    requires Consistent(lim, s.rows) && OpOk(s, op) && Writes(op.pc)
    ensures Consistent(lim, Write(s.rows, op, now).0)
  {
    match op.pc
    case FailWrite => UpdateKeepsConsistent(lim, s.rows, op.job, Only(Failed).(clearPrepared := true), {Starting}, now);
    case AckWrite(h) => UpdateKeepsConsistent(lim, s.rows, op.job, Only(Running).(native := Some(h)), {Starting}, now);
    case AckError => UpdateKeepsConsistent(lim, s.rows, op.job, Only(Unknown), {Starting}, now);
    case AckCancelled => UpdateKeepsConsistent(lim, s.rows, op.job, Only(Unknown), {Starting}, now);
    case ExpireWrite => UpdateKeepsConsistent(lim, s.rows, op.job, Only(Expired).(clearPrepared := true), {Prepared}, now);
    case CancelWrite => UpdateKeepsConsistent(lim, s.rows, op.job, Only(Cancelled).(clearPrepared := true), {Prepared}, now);
    case AdoptLoop(found) =>
      if found != [] {
        UpdateKeepsConsistent(lim, s.rows, op.job, Only(Running).(native := Some(found[0])), ACTIVE, now);
      }
    case PollWrite(reply, verdict) =>
      UpdateKeepsConsistent(lim, s.rows, op.job,
        Patch(verdict, None, Some(reply.exit), Some(PollOutput(op, reply)), false), ACTIVE, now);
    case TimeoutWrite => RequestTimeoutKeepsConsistent(lim, s.rows, op.job, now);
    case StaleWrite => UpdateKeepsConsistent(lim, s.rows, op.job, Only(Unknown), {Starting}, now);
    case ErrorWrite => UpdateKeepsConsistent(lim, s.rows, op.job, Only(Unknown), ACTIVE, now);
    case _ =>
  }

  lemma UnchangedWrite(s: Sys, op: Op, now: Time)
    requires Writes(op.pc) && !Write(s.rows, op, now).1
    ensures Write(s.rows, op, now).0 == s.rows && EvidenceNext(s, op) == s.evidence
  {
  }

  lemma WriteStep(lim: Limits, s: Sys, id: OpId, now: Time, n: Sys)
    requires Inv(lim, s) && id in s.ops && Writes(s.ops[id].pc)
    requires n == s.(rows := Write(s.rows, s.ops[id], now).0,
                     ops := s.ops[id := AfterWrite(s.ops[id], Write(s.rows, s.ops[id], now).1)],
                     evidence := EvidenceNext(s, s.ops[id]))
    ensures Inv(lim, n)
  {
    var op := s.ops[id];
    var next := n.ops[id];
    assert OpOk(s, op);
    assert op.job in s.rows ==> RowOk(s, op.job, s.rows[op.job]);
    if Write(s.rows, op, now).1 {
      ChangedWriteStep(lim, s, id, now, n);
    } else {
      UnchangedWrite(s, op, now);
      AfterWriteOk(s, s, op, now);
      MovedKeepsInv(lim, s, id, next, n);
    }
  }

  lemma ChangedWriteStep(lim: Limits, s: Sys, id: OpId, now: Time, n: Sys)
    requires Inv(lim, s) && id in s.ops && Writes(s.ops[id].pc) && Write(s.rows, s.ops[id], now).1
    requires OpOk(s, s.ops[id])
    requires s.ops[id].job in s.rows ==> RowOk(s, s.ops[id].job, s.rows[s.ops[id].job])
    requires n == s.(rows := Write(s.rows, s.ops[id], now).0,
                     ops := s.ops[id := AfterWrite(s.ops[id], true)],
                     evidence := EvidenceNext(s, s.ops[id]))
    ensures Inv(lim, n)
  {
    var op := s.ops[id];
    var next := n.ops[id];
    WriteRewrites(s, op, now);
    var q := n.rows[op.job];
    RewriteMono(s, id, q, next, n);
    OpStays(s, n, op);
    AfterWriteOk(s, n, op, now);
    WriteKeepsConsistent(lim, s, op, now);
    RewriteKeepsInv(lim, s, id, q, next, n);
  }

  lemma AdmitStep(lim: Limits, s: Sys, id: OpId, a: Admission, n: Sys)
    requires Inv(lim, s) && id in s.ops && s.ops[id].pc.Begin? && s.ops[id].call.Start?
    requires a.job == s.ops[id].job && a.caller == s.ops[id].call.caller
    requires n == s.(rows := Admit(lim, s.rows, a).0,
                     ops := s.ops[id := AfterAdmit(s.ops[id], a.caller, Admit(lim, s.rows, a).1)])
    ensures Inv(lim, n)
  {
    var op := s.ops[id];
    var reply := Admit(lim, s.rows, a).1;
    assert OpOk(s, op);
    assert op.job in s.rows ==> RowOk(s, op.job, s.rows[op.job]);
    AdmitReplyFits(lim, s.rows, a);
    AdmitRewrites(lim, s, op, a);
    AdmitKeepsConsistent(lim, s.rows, a);
    if n.rows == s.rows {
      RefusedStep(lim, s, id, reply, n);
    } else {
      GrantedStep(lim, s, id, reply, n);
    }
  }

  lemma RefusedStep(lim: Limits, s: Sys, id: OpId, reply: AdmitReply, n: Sys)
    requires Inv(lim, s) && id in s.ops && s.ops[id].pc.Begin? && s.ops[id].call.Start?
    requires OpOk(s, s.ops[id])
    requires s.ops[id].job in s.rows ==> RowOk(s, s.ops[id].job, s.rows[s.ops[id].job])
    requires ReplyFits(s.rows, s.rows, s.ops[id].job, s.ops[id].call.caller, reply)
    requires n == s.(ops := s.ops[id := AfterAdmit(s.ops[id], s.ops[id].call.caller, reply)])
    ensures Inv(lim, n)
  {
    var op := s.ops[id];
    StartedOk(s, s, op, reply);
    MovedKeepsInv(lim, s, id, AfterAdmit(op, op.call.caller, reply), n);
  }

  lemma GrantedStep(lim: Limits, s: Sys, id: OpId, reply: AdmitReply, n: Sys)
    requires Inv(lim, s) && id in s.ops && s.ops[id].pc.Begin? && s.ops[id].call.Start?
    requires OpOk(s, s.ops[id]) && Consistent(lim, n.rows)
    requires ReplyFits(s.rows, n.rows, s.ops[id].job, s.ops[id].call.caller, reply)
    requires s.ops[id].job in s.rows && RowOk(s, s.ops[id].job, s.rows[s.ops[id].job])
    requires s.ops[id].job in n.rows && n.rows == s.rows[s.ops[id].job := n.rows[s.ops[id].job]]
    requires Rewrites(s, s.ops[id], s.rows[s.ops[id].job], n.rows[s.ops[id].job])
    requires n == s.(rows := n.rows, ops := s.ops[id := AfterAdmit(s.ops[id], s.ops[id].call.caller, reply)])
    ensures Inv(lim, n)
  {
    var op := s.ops[id];
    var q := n.rows[op.job];
    var next := AfterAdmit(op, op.call.caller, reply);
    RewriteMono(s, id, q, next, n);
    OpStays(s, n, op);
    RewrittenRowOk(s, id, q, next, n);
    StartedOk(s, n, op, reply);
    RewriteKeepsInv(lim, s, id, q, next, n);
  }

  /** A step that only moves the operation, to `next`. */
  lemma LocalStepNext(lim: Limits, s: Sys, id: OpId, now: Time, reply: Resume, next: Op)
    requires id in s.ops && !s.ops[id].pc.PollWrite?
    requires Run(lim, s.gate, s.rows, s.ops[id], now, reply) == Local(s.rows, next)
    ensures Moved(s, id, next, StepNext(lim, s, id, now, reply))
  {
  }

  lemma InterruptStep(lim: Limits, s: Sys, id: OpId, now: Time, reply: Resume)
    requires Inv(lim, s) && id in s.ops && Fits(s, s.ops[id], reply) && reply.Interrupted?
    ensures Inv(lim, StepNext(lim, s, id, now, reply))
  {
    var op := s.ops[id];
    var next := op.(pc := if op.pc.AwaitAck? then AckCancelled else Raised);
    assert OpOk(s, op);
    LocalStepNext(lim, s, id, now, reply, next);
    MovedKeepsInv(lim, s, id, next, StepNext(lim, s, id, now, reply));
  }

  lemma RevalidateStep(lim: Limits, s: Sys, id: OpId, now: Time, reply: Resume)
    requires Inv(lim, s) && id in s.ops && s.ops[id].pc.Revalidate? && reply.Proceed?
    ensures Inv(lim, StepNext(lim, s, id, now, reply))
  {
    var op := s.ops[id];
    var next := op.(pc := if reply.directoryOk then Dispatch(op.pc.launch) else FailWrite);
    assert OpOk(s, op);
    LocalStepNext(lim, s, id, now, reply, next);
    MovedKeepsInv(lim, s, id, next, StepNext(lim, s, id, now, reply));
  }

  lemma NativeReplyStep(lim: Limits, s: Sys, id: OpId, now: Time, reply: Resume)
    requires Inv(lim, s) && id in s.ops && Fits(s, s.ops[id], reply)
    requires AtAwait(s.ops[id].pc) && !s.ops[id].pc.Begin? && !reply.Interrupted?
    ensures Inv(lim, StepNext(lim, s, id, now, reply))
  {
    var op := s.ops[id];
    var next := ReplyStep(op, reply);
    assert OpOk(s, op);
    ReplyStepOk(s, op, reply);
    LocalStepNext(lim, s, id, now, reply, next);
    MovedKeepsInv(lim, s, id, next, StepNext(lim, s, id, now, reply));
  }

  predicate Reads(pc: Pc) {
    !AtAwait(pc) && !Writes(pc) && !PreDispatch(pc)
  }

  lemma ReadingStep(lim: Limits, s: Sys, id: OpId, now: Time, reply: Resume)
    requires Inv(lim, s) && id in s.ops && Reads(s.ops[id].pc) && !reply.Interrupted?
    ensures Inv(lim, StepNext(lim, s, id, now, reply))
  {
    var op := s.ops[id];
    var next := ReadStep(s.rows, op);
    assert OpOk(s, op);
    assert op.job in s.rows ==> RowOk(s, op.job, s.rows[op.job]);
    ReadStepOk(s, op);
    LocalStepNext(lim, s, id, now, reply, next);
    MovedKeepsInv(lim, s, id, next, StepNext(lim, s, id, now, reply));
  }

  lemma StartStep(lim: Limits, s: Sys, id: OpId, now: Time, reply: Resume)
    requires Inv(lim, s) && id in s.ops
    requires s.ops[id].pc.Begin? && s.ops[id].call.Start? && reply.Proceed?
    ensures Inv(lim, StepNext(lim, s, id, now, reply))
  {
    var op := s.ops[id];
    AdmitStep(lim, s, id,
      Admission(op.job, op.call.secret, op.call.caller, now, GatewayPaused(s.gate.draining), reply.directoryOk),
      StepNext(lim, s, id, now, reply));
  }

  lemma BeginningStep(lim: Limits, s: Sys, id: OpId, now: Time, reply: Resume)
    requires Inv(lim, s) && id in s.ops
    requires s.ops[id].pc.Begin? && !s.ops[id].call.Start? && reply.Proceed?
    ensures Inv(lim, StepNext(lim, s, id, now, reply))
  {
    var op := s.ops[id];
    var next := BeginStep(lim, s.gate, s.rows, op, now, reply.directoryOk).op;
    assert OpOk(s, op);
    assert op.job in s.rows ==> RowOk(s, op.job, s.rows[op.job]);
    BegunOk(lim, s, op, now, reply.directoryOk);
    LocalStepNext(lim, s, id, now, reply, next);
    MovedKeepsInv(lim, s, id, next, StepNext(lim, s, id, now, reply));
  }

  lemma LaunchStepNext(lim: Limits, s: Sys, id: OpId, now: Time, reply: Resume)
    requires id in s.ops && s.ops[id].pc.Dispatch? && !reply.Interrupted?
    ensures Dispatched(s, id, StepNext(lim, s, id, now, reply))
  {
  }

  lemma LaunchStep(lim: Limits, s: Sys, id: OpId, now: Time, reply: Resume)
    requires Inv(lim, s) && id in s.ops && s.ops[id].pc.Dispatch? && !reply.Interrupted?
    ensures Inv(lim, StepNext(lim, s, id, now, reply))
  {
    var n := StepNext(lim, s, id, now, reply);
    LaunchStepNext(lim, s, id, now, reply);
    DispatchKeepsInv(lim, s, id, n);
  }

  lemma WritingStepNext(lim: Limits, s: Sys, id: OpId, now: Time, reply: Resume)
    requires id in s.ops && Writes(s.ops[id].pc) && !reply.Interrupted?
    ensures StepNext(lim, s, id, now, reply) ==
      s.(rows := Write(s.rows, s.ops[id], now).0,
         ops := s.ops[id := AfterWrite(s.ops[id], Write(s.rows, s.ops[id], now).1)],
         evidence := EvidenceNext(s, s.ops[id]))
  {
  }

  lemma WritingStep(lim: Limits, s: Sys, id: OpId, now: Time, reply: Resume)
    requires Inv(lim, s) && id in s.ops && Writes(s.ops[id].pc) && !reply.Interrupted?
    ensures Inv(lim, StepNext(lim, s, id, now, reply))
  {
    var n := StepNext(lim, s, id, now, reply);
    WritingStepNext(lim, s, id, now, reply);
    WriteStep(lim, s, id, now, n);
  }

  lemma StepKeepsInv(lim: Limits, s: Sys, id: OpId, now: Time, reply: Resume)
    requires Inv(lim, s) && Enabled(s, StepEvent(id, now, reply))
    ensures Inv(lim, StepNext(lim, s, id, now, reply))
  {
    var op := s.ops[id];
    if reply.Interrupted? {
      InterruptStep(lim, s, id, now, reply);
    } else if op.pc.Begin? {
      if op.call.Start? {
        StartStep(lim, s, id, now, reply);
      } else {
        BeginningStep(lim, s, id, now, reply);
      }
    } else if op.pc.Revalidate? {
      RevalidateStep(lim, s, id, now, reply);
    } else if op.pc.Dispatch? {
      LaunchStep(lim, s, id, now, reply);
    } else if Writes(op.pc) {
      WritingStep(lim, s, id, now, reply);
    } else if AtAwait(op.pc) {
      NativeReplyStep(lim, s, id, now, reply);
    } else {
      ReadingStep(lim, s, id, now, reply);
    }
  }
}
