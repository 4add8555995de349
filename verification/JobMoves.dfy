/** What one step of an operation does to the operation and to the rows, stated once for the
    properties that follow a flag, a reply or a deadline through a run. */
module JobMoves {
  import opened Common
  import opened JobTable
  import opened AdmissionGate
  import opened JobProtocol
  import opened JobEvents
  import opened JobTheorems

  // ----------------------------------------------------------- the operation

  predicate Unflagged(t: Table, j: JobId) {
    j in t ==> !t[j].timeoutRequested
  }

  predicate AboutToCancel(pc: Pc) {
    pc.PollWrite? && pc.verdict.Cancelled?
  }

  /** The reply to a poll that the operation is at work on. */
  function AtWorkOn(pc: Pc): Option<PollReply> {
    match pc
    case PollFlag(reply) => Some(reply)
    case PollWrite(reply, _) => Some(reply)
    case PollRead(reply, _) => Some(reply)
    case _ => None
  }

  /** Program counters that only `status` and `cancel` reach. */
  predicate Elsewhere(pc: Pc) {
    pc.ExpireWrite? || pc.ExpireRead? || pc.CancelWrite? || pc.CancelRead?
  }

  predicate Reconciling(op: Op) {
    op.call.Maintain? && !op.pc.Begin? && !op.pc.Finished? && !op.pc.Raised?
  }

  /** A reconciliation that goes on keeps the deadline it read, and requests a timeout only
      when it has found that deadline passed. */
  predicate KeepsDeadline(op: Op, next: Op) {
    Reconciling(op) && !Elsewhere(op.pc) && Reconciling(next) ==>
      && !Elsewhere(next.pc) && next.v.deadline == op.v.deadline
      && (next.pc.TimeoutWrite? && op.call.Maintain? ==> op.v.deadline < op.call.now)
  }

  /** A reconciliation begins by reading its row, which is active. */
  predicate ReadsDeadline(t: Table, op: Op, next: Op) {
    op.pc.Begin? && Reconciling(next) ==>
      && op.job in t && !t[op.job].state.Prepared? && next.v.deadline == t[op.job].deadline
      && !Elsewhere(next.pc) && !next.pc.TimeoutWrite?
  }

  /** One step of `op`, resumed with `reply`: it stays the same call on the same job, comes by
      a reply only from a poll, and by a verdict `cancelled` only from an unset flag. */
  predicate Moves(t: Table, op: Op, reply: Resume, next: Op) {
    && next.adapter == op.adapter && next.job == op.job && next.call == op.call && !next.pc.Begin?
    && (AboutToCancel(next.pc) ==> op.pc.PollFlag? && Unflagged(t, op.job))
    && (AtWorkOn(next.pc).Some? ==>
          AtWorkOn(next.pc) == AtWorkOn(op.pc)
          || (op.pc.AwaitPoll? && reply == Polled(AtWorkOn(next.pc).value)))
    && KeepsDeadline(op, next) && ReadsDeadline(t, op, next)
  }

  lemma WriteMoves(t: Table, op: Op, reply: Resume, changed: bool)
    requires Writes(op.pc)
    ensures Moves(t, op, reply, AfterWrite(op, changed))
  {
  }

  lemma ReadMoves(t: Table, op: Op, reply: Resume)
    requires !Writes(op.pc) && !AtAwait(op.pc) && !op.pc.Revalidate? && !op.pc.Dispatch?
    ensures Moves(t, op, reply, ReadStep(t, op))
  {
  }

  lemma ReplyMoves(t: Table, op: Op, reply: Resume)
    requires AtAwait(op.pc) && !op.pc.Begin?
    ensures Moves(t, op, reply, ReplyStep(op, reply))
  {
  }

  lemma BeginMoves(lim: Limits, gate: Gate, t: Table, op: Op, now: Time, reply: Resume, directoryOk: bool)
    requires op.pc.Begin?
    ensures Moves(t, op, reply, BeginStep(lim, gate, t, op, now, directoryOk).op)
  {
  }

  lemma RunMoves(lim: Limits, gate: Gate, t: Table, op: Op, now: Time, reply: Resume)
    ensures Moves(t, op, reply, Run(lim, gate, t, op, now, reply).op)
  {
    if op.pc.Begin? {
      BeginMoves(lim, gate, t, op, now, reply, reply.Proceed? && reply.directoryOk);
    } else if Writes(op.pc) {
      WriteMoves(t, op, reply, Write(t, op, now).1);
    } else if AtAwait(op.pc) {
      ReplyMoves(t, op, reply);
    } else if !op.pc.Revalidate? && !op.pc.Dispatch? {
      ReadMoves(t, op, reply);
    }
  }

  /** Every other operation stands still. */
  lemma StepMoves(lim: Limits, s: Sys, e: Event, n: Sys)
    requires Follows(lim, s, e, n) && e.StepEvent?
    ensures n.ops.Keys == s.ops.Keys && n.ops == s.ops[e.id := n.ops[e.id]]
    ensures Moves(s.rows, s.ops[e.id], e.reply, n.ops[e.id])
  {
    RunMoves(lim, s.gate, s.rows, s.ops[e.id], e.now, e.reply);
  }

  /** An operation after an event was there before, or has yet to begin. */
  lemma OpsMove(lim: Limits, s: Sys, e: Event, n: Sys, id: OpId)
    requires Follows(lim, s, e, n) && id in n.ops && !(e.StepEvent? && e.id == id)
    ensures n.ops[id].pc.Begin? || (id in s.ops && n.ops[id] == s.ops[id])
  {
    if e.StepEvent? {
      StepMoves(lim, s, e, n);
    }
  }

  /** `c` is the next step of operation `id` after its step at `b`. */
  ghost predicate NextStep(ss: seq<Sys>, es: seq<Event>, b: nat, c: nat, id: OpId)
    requires b < c < |es| && |ss| == |es| + 1
  {
    && es[b].StepEvent? && es[b].id == id && id in ss[b].ops
    && es[c].StepEvent? && es[c].id == id
    && forall m :: b < m <= c ==> id in ss[m].ops && (m < c ==> !(es[m].StepEvent? && es[m].id == id))
  }

  /** An event that is no step of the operation leaves it as it is, if it leaves it at all. */
  predicate Stands(s: Sys, e: Event, n: Sys, id: OpId) {
    id in s.ops && id in n.ops && !(e.StepEvent? && e.id == id) ==> n.ops[id] == s.ops[id]
  }

  lemma AllStand(lim: Limits, ss: seq<Sys>, es: seq<Event>, id: OpId)
    requires IsRun(lim, ss, es)
    ensures forall m :: 0 <= m < |es| ==> Stands(ss[m], es[m], ss[m + 1], id)
  {
    forall m | 0 <= m < |es| ensures Stands(ss[m], es[m], ss[m + 1], id) {
      assert Follows(lim, ss[m], es[m], ss[m + 1]);
      if es[m].StepEvent? {
        StepMoves(lim, ss[m], es[m], ss[m + 1]);
      }
    }
  }

  lemma {:induction false} StandsUntil(ss: seq<Sys>, es: seq<Event>, b: nat, m: nat, id: OpId)
    requires b < m < |ss| == |es| + 1
    requires forall k :: 0 <= k < |es| ==> Stands(ss[k], es[k], ss[k + 1], id)
    requires forall k :: b < k <= m ==> id in ss[k].ops
    requires forall k :: b < k < m ==> !(es[k].StepEvent? && es[k].id == id)
    ensures ss[m].ops[id] == ss[b + 1].ops[id]
    decreases m
  {
    if b + 1 < m {
      StandsUntil(ss, es, b, m - 1, id);
      assert Stands(ss[m - 1], es[m - 1], ss[m - 1 + 1], id);
    }
  }

  /** Until its next step the operation is what its last step made it. */
  lemma WaitsUnchanged(lim: Limits, ss: seq<Sys>, es: seq<Event>, b: nat, c: nat, id: OpId)
    requires IsRun(lim, ss, es) && b < c < |es| && NextStep(ss, es, b, c, id)
    ensures ss[c].ops[id] == ss[b + 1].ops[id]
  {
    AllStand(lim, ss, es, id);
    StandsUntil(ss, es, b, c, id);
  }

  // ---------------------------------------------------------------- the rows

  /** What a step of `op` does to the row of its own job. */
  predicate RowMoves(op: Op, r: Row, q: Row) {
    && (q.timeoutRequested <==> r.timeoutRequested || (op.pc.TimeoutWrite? && IsActive(r.state)))
    && (q.state.Cancelled? ==> r.state.Cancelled? || r.state.Prepared? || (AboutToCancel(op.pc) && IsActive(r.state)))
    && (r.state.Cancelled? || (AboutToCancel(op.pc) && IsActive(r.state)) ==> q.state.Cancelled?)
  }

  /** No row appears or goes, and only that of the operation's job changes. */
  predicate TableMoves(op: Op, t: Table, u: Table) {
    && u.Keys == t.Keys
    && forall j :: j in t ==> if j == op.job then RowMoves(op, t[j], u[j]) else u[j] == t[j]
  }

  lemma WriteRows(t: Table, op: Op, now: Time)
    requires Writes(op.pc)
    ensures TableMoves(op, t, Write(t, op, now).0)
  {
    var u := Write(t, op, now).0;
    assert op.job in t ==> op.job in u && RowMoves(op, t[op.job], u[op.job]);
  }

  lemma AdmitRows(lim: Limits, t: Table, op: Op, a: Admission)
    requires a.job == op.job && op.pc.Begin?
    ensures TableMoves(op, t, Admit(lim, t, a).0)
  {
  }

  lemma StepRows(lim: Limits, s: Sys, e: Event, n: Sys)
    requires Follows(lim, s, e, n) && e.StepEvent?
    ensures TableMoves(s.ops[e.id], s.rows, n.rows)
  {
    var op := s.ops[e.id];
    if IsAdmission(op, e.reply) {
      AdmissionShape(lim, s, e.id, e.now, e.reply, n);
      AdmitRows(lim, s.rows, op, StartAdmission(s, op, e.now, e.reply));
    } else if !e.reply.Interrupted? && Writes(op.pc) {
      WritingStepNext(lim, s, e.id, e.now, e.reply);
      WriteRows(s.rows, op, e.now);
    } else {
      QuietShape(lim, s, e.id, e.now, e.reply, n);
      InterruptedOrQuiet(s, op, e.reply);
    }
  }

  lemma InterruptedOrQuiet(s: Sys, op: Op, reply: Resume)
    requires Fits(s, op, reply) && (reply.Interrupted? || !Writes(op.pc))
    ensures !AboutToCancel(op.pc) && !op.pc.TimeoutWrite?
  {
  }
}
