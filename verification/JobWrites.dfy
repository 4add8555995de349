/** The part of a step that rewrites the row of the operation's job. */
module JobWrites {
  import opened Common
  import opened JobTable
  import opened JobProtocol
  import opened JobInvariant
  import opened JobControl

  /** The five ways in which an operation may rewrite its row. */
  predicate Legal(op: Op, r: Row, q: Row) {
    || (IsActive(r.state) && IsActive(q.state) && q.owner == r.owner)
    || (r.state.Prepared? && (q.state.Expired? || q.state.Cancelled?) && q.exit == r.exit && q.owner == r.owner)
    || (IsActive(r.state) && IsFinal(q.state) && q.owner == r.owner
        && op.pc.PollWrite? && q.state == op.pc.verdict && q.exit == op.pc.reply.exit)
    || (r.state.Starting? && q.state.Failed? && q.owner == r.owner && op.pc.FailWrite?)
    || (r.state.Prepared? && q.state.Starting? && op.pc.Begin? && op.call.Start? && q.owner == op.call.caller)
  }

  ghost predicate Rewrites(s: Sys, op: Op, r: Row, q: Row) {
    && Evolves(r, q)
    && (q.command.Some? ==> q.command == r.command)
    && |q.output| <= MAX_OUTPUT
    && (q.native.Some? ==> Owned(s, op.job, q.native.value))
    && Legal(op, r, q)
  }

  lemma WriteRewrites(s: Sys, op: Op, now: Time)
    requires OpOk(s, op) && Writes(op.pc) && Write(s.rows, op, now).1
    requires op.job in s.rows ==> RowOk(s, op.job, s.rows[op.job])
    ensures op.job in s.rows
    ensures Write(s.rows, op, now).0 == s.rows[op.job := Write(s.rows, op, now).0[op.job]]
    ensures Rewrites(s, op, s.rows[op.job], Write(s.rows, op, now).0[op.job])
  {
    var r, q := s.rows[op.job], Write(s.rows, op, now).0[op.job];
    match op.pc
    case PollWrite(reply, verdict) =>
      assert Evolves(r, q);
    case _ =>
  }

  lemma AdmitRewrites(lim: Limits, s: Sys, op: Op, a: Admission)
    requires op.pc.Begin? && op.call.Start? && a.job == op.job && a.caller == op.call.caller
    requires op.job in s.rows ==> RowOk(s, op.job, s.rows[op.job])
    ensures Admit(lim, s.rows, a).0 == s.rows
      || (op.job in s.rows
          && Admit(lim, s.rows, a).0 == s.rows[op.job := Admit(lim, s.rows, a).0[op.job]]
          && Rewrites(s, op, s.rows[op.job], Admit(lim, s.rows, a).0[op.job]))
  {
  }

  /** `n` is `s` after operation `id` rewrote its row to `q`; its own next state is `next`. */
  predicate Rewritten(s: Sys, id: OpId, q: Row, next: Op, n: Sys) {
    && id in s.ops && s.ops[id].job in s.rows
    && n == s.(rows := s.rows[s.ops[id].job := q],
               ops := s.ops[id := next], evidence := EvidenceNext(s, s.ops[id]))
  }

  lemma RewriteMono(s: Sys, id: OpId, q: Row, next: Op, n: Sys)
    requires Rewritten(s, id, q, next, n) && Rewrites(s, s.ops[id], s.rows[s.ops[id].job], q)
    ensures Mono(s, n)
  {
  }

  /** A final verdict is recorded together with the reply it came from. */
  lemma VerdictAttributed(s: Sys, op: Op, n: Sys, r: Row, q: Row)
    requires op.pc.PollWrite? && Judged(s, op, op.pc.reply, op.pc.verdict)
    requires IsActive(r.state) && IsFinal(q.state) && Evolves(r, q)
    requires q.state == op.pc.verdict && q.exit == op.pc.reply.exit
    requires op.job in s.rows && s.rows[op.job] == r
    requires LogOk(s) && n.launched == s.launched && n.evidence == s.evidence[op.job := op.pc.reply]
    ensures Attributed(n, op.job, q)
  {
    OwnedIsFrozen(s, op.job, op.v.native.value);
  }

  lemma RewrittenRowOk(s: Sys, id: OpId, q: Row, next: Op, n: Sys)
    requires Rewritten(s, id, q, next, n) && Rewrites(s, s.ops[id], s.rows[s.ops[id].job], q)
    requires RowOk(s, s.ops[id].job, s.rows[s.ops[id].job]) && OpOk(s, s.ops[id]) && LogOk(s)
    requires PreDispatch(s.ops[id].pc) ==> Claim(s, s.ops[id])
    ensures RowOk(n, s.ops[id].job, q)
  {
    var op := s.ops[id];
    var r := s.rows[op.job];
    RewriteMono(s, id, q, next, n);
    if q.native.Some? {
      OwnedStays(s, n, op.job, q.native.value);
    }
    if op.pc.PollWrite? && IsFinal(q.state) && IsActive(r.state) {
      VerdictAttributed(s, op, n, r, q);
    } else {
      assert Attributed(n, op.job, q);
    }
  }

  lemma RewriteKeepsRows(s: Sys, id: OpId, q: Row, next: Op, n: Sys)
    requires Rewritten(s, id, q, next, n) && Rewrites(s, s.ops[id], s.rows[s.ops[id].job], q)
    requires RowsOk(s) && LogOk(s) && OpsOk(s) && ClaimsOk(s)
    ensures RowsOk(n)
  {
    RewriteMono(s, id, q, next, n);
    RewrittenRowOk(s, id, q, next, n);
    forall j | j in n.rows && j != s.ops[id].job ensures RowOk(n, j, n.rows[j]) {
      assert RowOk(s, j, s.rows[j]);
      RowStays(s, n, j);
    }
  }

  /** A row leaves the active states only with the process known dead or never dispatched. */
  lemma RewriteCovers(s: Sys, id: OpId, q: Row, next: Op, n: Sys)
    requires Rewritten(s, id, q, next, n) && Rewrites(s, s.ops[id], s.rows[s.ops[id].job], q)
    requires Mono(s, n) && s.ops[id].job in s.launched && Covered(s, s.ops[id].job)
    requires RowOk(s, s.ops[id].job, s.rows[s.ops[id].job]) && OpOk(s, s.ops[id])
    requires PreDispatch(s.ops[id].pc) ==> Claim(s, s.ops[id])
    ensures Covered(n, s.ops[id].job)
  {
    var op := s.ops[id];
    if op.pc.PollWrite? && IsFinal(op.pc.verdict) {
      assert OwnedDead(s, op.job, op.v.native.value);
    }
    if Ended(s, op.job) {
      EndedStays(s, n, op.job);
    }
  }

  lemma RewriteKeepsCovered(s: Sys, id: OpId, q: Row, next: Op, n: Sys)
    requires Rewritten(s, id, q, next, n) && Rewrites(s, s.ops[id], s.rows[s.ops[id].job], q)
    requires RowsOk(s) && OpsOk(s) && ClaimsOk(s) && CoveredOk(s)
    ensures CoveredOk(n)
  {
    RewriteMono(s, id, q, next, n);
    forall j | j in n.launched ensures Covered(n, j) {
      assert Covered(s, j);
      if j == s.ops[id].job {
        RewriteCovers(s, id, q, next, n);
      } else if Ended(s, j) {
        EndedStays(s, n, j);
      }
    }
  }

  /** Another start between admission and dispatch keeps its claim. */
  lemma RewriteKeepsClaim(s: Sys, id: OpId, q: Row, next: Op, n: Sys, other: OpId)
    requires Rewritten(s, id, q, next, n) && Rewrites(s, s.ops[id], s.rows[s.ops[id].job], q)
    requires RowsOk(s) && LogOk(s) && OpsOk(s) && ClaimsOk(s)
    requires other in s.ops && other != id && PreDispatch(s.ops[other].pc)
    ensures Claim(n, s.ops[other])
  {
    var op := s.ops[id];
    assert Claim(s, s.ops[other]);
    if s.ops[other].job == op.job {
      assert RowOk(s, op.job, s.rows[op.job]);
      assert Rivals(op, s.ops[other]) ==> id == other;
      if op.pc.PollWrite? && IsFinal(q.state) {
        OwnedIsFrozen(s, op.job, op.v.native.value);
      }
    }
  }
}
