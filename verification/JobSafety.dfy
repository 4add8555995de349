/** Moves of an operation, rewrites of its row and dispatches keep each part of the invariant. */
module JobSafety {
  import opened JobTable
  import opened JobProtocol
  import opened JobInvariant
  import opened JobWrites

  lemma OpsStay(s: Sys, n: Sys, id: OpId)
    requires Mono(s, n) && OpsOk(s) && id in s.ops
    requires forall other :: other in n.ops && other != id ==> other in s.ops && n.ops[other] == s.ops[other]
    requires id in n.ops ==> OpOk(n, n.ops[id])
    ensures OpsOk(n)
  {
    forall other | other in n.ops ensures OpOk(n, n.ops[other]) {
      if other != id {
        OpStays(s, n, s.ops[other]);
      }
    }
  }

  // ------------------------------------------------------- local steps

  /** `n` differs from `s` only in the state of operation `id`. */
  predicate Moved(s: Sys, id: OpId, next: Op, n: Sys) {
    id in s.ops && n == s.(ops := s.ops[id := next])
  }

  predicate KeepsPlace(op: Op, next: Op) {
    PreDispatch(next.pc) ==> PreDispatch(op.pc) && next.job == op.job && next.call == op.call
  }

  lemma MovedClaims(s: Sys, id: OpId, next: Op, n: Sys)
    requires Moved(s, id, next, n) && ClaimsOk(s) && KeepsPlace(s.ops[id], next)
    ensures ClaimsOk(n)
  {
    forall a | a in n.ops && PreDispatch(n.ops[a].pc) ensures Claim(n, n.ops[a]) {
      assert Claim(s, s.ops[a]);
    }
    forall a, b | a in n.ops && b in n.ops && Rivals(n.ops[a], n.ops[b]) ensures a == b {
      assert Rivals(s.ops[a], s.ops[b]);
    }
  }

  lemma MovedInFlight(s: Sys, id: OpId, next: Op, n: Sys)
    requires Moved(s, id, next, n) && InFlight(s)
    requires OpOk(s, next) && KeepsPlace(s.ops[id], next)
    ensures InFlight(n)
  {
    MovedClaims(s, id, next, n);
    OpStays(s, n, next);
    OpsStay(s, n, id);
  }

  lemma MovedKeepsInv(lim: Limits, s: Sys, id: OpId, next: Op, n: Sys)
    requires Inv(lim, s) && Moved(s, id, next, n)
    requires OpOk(s, next) && KeepsPlace(s.ops[id], next)
    ensures Inv(lim, n)
  {
    MovedInFlight(s, id, next, n);
    SameHistory(s, n);
    SameJobs(s, n);
  }

  /** The parts of the invariant that do not look at operations. */
  lemma SameHistory(s: Sys, n: Sys)
    requires n == s.(ops := n.ops, gate := n.gate) && History(s)
    ensures History(n)
  {
    forall i: nat | i < |n.log| ensures LoggedOnce(n, i) {
      assert LoggedOnce(s, i);
    }
    forall j | j in n.retired ensures RetiredRow(n, j, n.retired[j]) {
      assert RetiredRow(s, j, s.retired[j]);
    }
    forall a, b | 0 <= a < b < |n.log| && SameKey(n, n.log[a].job, n.log[b].job)
      ensures n.log[a].job in n.retired
    {
      assert SameKey(s, s.log[a].job, s.log[b].job);
    }
  }

  lemma SameJobs(s: Sys, n: Sys)
    requires n == s.(ops := n.ops, gate := n.gate) && Jobs(s) && LogOk(s)
    ensures Jobs(n)
  {
    forall j | j in n.launched ensures Covered(n, j) {
      assert Covered(s, j);
      if Ended(s, j) { EndedStays(s, n, j); }
    }
    forall j | j in n.rows ensures RowOk(n, j, n.rows[j]) {
      assert RowOk(s, j, s.rows[j]);
      RowStays(s, n, j);
    }
  }

  // ---------------------------------------------------- steps that rewrite

  lemma RewriteClaims(s: Sys, id: OpId, q: Row, next: Op, n: Sys)
    requires Rewritten(s, id, q, next, n) && Rewrites(s, s.ops[id], s.rows[s.ops[id].job], q)
    requires RowsOk(s) && LogOk(s) && OpsOk(s) && ClaimsOk(s)
    requires PreDispatch(next.pc) ==>
      next.job == s.ops[id].job && s.rows[next.job].state.Prepared? && Claim(n, next)
    ensures ClaimsOk(n)
  {
    forall a | a in n.ops && PreDispatch(n.ops[a].pc) ensures Claim(n, n.ops[a]) {
      if a != id {
        RewriteKeepsClaim(s, id, q, next, n, a);
      }
    }
    forall a, b | a in n.ops && b in n.ops && Rivals(n.ops[a], n.ops[b]) ensures a == b {
      if a != id {
        assert Claim(s, s.ops[a]);
      }
      if b != id {
        assert Claim(s, s.ops[b]);
      }
      assert a != id && b != id ==> Rivals(s.ops[a], s.ops[b]);
    }
  }

  lemma RewriteHistory(s: Sys, id: OpId, q: Row, next: Op, n: Sys)
    requires Rewritten(s, id, q, next, n) && History(s)
    ensures History(n)
  {
    forall i: nat | i < |n.log| ensures LoggedOnce(n, i) {
      assert LoggedOnce(s, i);
    }
    forall j | j in n.retired ensures RetiredRow(n, j, n.retired[j]) {
      assert RetiredRow(s, j, s.retired[j]);
    }
    forall a, b | 0 <= a < b < |n.log| && SameKey(n, n.log[a].job, n.log[b].job)
      ensures n.log[a].job in n.retired
    {
      assert SameKey(s, s.log[a].job, s.log[b].job);
    }
  }

  lemma RewriteInFlight(s: Sys, id: OpId, q: Row, next: Op, n: Sys)
    requires Rewritten(s, id, q, next, n) && Rewrites(s, s.ops[id], s.rows[s.ops[id].job], q)
    requires RowsOk(s) && LogOk(s) && InFlight(s) && OpOk(n, next)
    requires PreDispatch(next.pc) ==>
      next.job == s.ops[id].job && s.rows[next.job].state.Prepared? && Claim(n, next)
    ensures InFlight(n)
  {
    RewriteMono(s, id, q, next, n);
    OpsStay(s, n, id);
    RewriteClaims(s, id, q, next, n);
  }

  lemma RewriteJobs(s: Sys, id: OpId, q: Row, next: Op, n: Sys)
    requires Rewritten(s, id, q, next, n) && Rewrites(s, s.ops[id], s.rows[s.ops[id].job], q)
    requires Jobs(s) && LogOk(s) && InFlight(s)
    ensures Jobs(n)
  {
    RewriteKeepsRows(s, id, q, next, n);
    RewriteKeepsCovered(s, id, q, next, n);
  }

  lemma RewriteKeepsInv(lim: Limits, s: Sys, id: OpId, q: Row, next: Op, n: Sys)
    requires Inv(lim, s) && Rewritten(s, id, q, next, n)
    requires Rewrites(s, s.ops[id], s.rows[s.ops[id].job], q)
    requires Consistent(lim, n.rows) && OpOk(n, next)
    requires PreDispatch(next.pc) ==>
      next.job == s.ops[id].job && s.rows[next.job].state.Prepared? && Claim(n, next)
    ensures Inv(lim, n)
  {
    RewriteHistory(s, id, q, next, n);
    RewriteJobs(s, id, q, next, n);
    RewriteInFlight(s, id, q, next, n);
  }

  // ------------------------------------------------------------- dispatch

  predicate Dispatched(s: Sys, id: OpId, n: Sys) {
    && id in s.ops && s.ops[id].pc.Dispatch?
    && n == s.(ops := s.ops[id := s.ops[id].(pc := AwaitAck)],
               log := s.log + [s.ops[id].pc.launch],
               launched := s.launched[s.ops[id].pc.launch.job := |s.log|],
               pending := s.pending + {|s.log|})
  }

  lemma DispatchLog(s: Sys, id: OpId, n: Sys)
    requires Dispatched(s, id, n) && LogOk(s) && NativeOk(s)
    requires OpOk(s, s.ops[id]) && Claim(s, s.ops[id])
    ensures LogOk(n) && NativeOk(n) && Mono(s, n)
  {
    forall i: nat | i < |n.log| ensures LoggedOnce(n, i) {
      if i < |s.log| {
        assert LoggedOnce(s, i);
      }
    }
  }

  lemma DispatchRows(s: Sys, id: OpId, n: Sys)
    requires Dispatched(s, id, n) && Mono(s, n) && RowsOk(s) && CoveredOk(s) && LogOk(s)
    requires OpOk(s, s.ops[id]) && Claim(s, s.ops[id])
    ensures RowsOk(n) && CoveredOk(n)
  {
    var job := s.ops[id].job;
    forall j | j in n.rows ensures RowOk(n, j, n.rows[j]) {
      assert RowOk(s, j, s.rows[j]);
      if j == job {
        if s.rows[j].native.Some? { OwnedStays(s, n, j, s.rows[j].native.value); }
      } else {
        RowStays(s, n, j);
      }
    }
    forall j | j in n.launched ensures Covered(n, j) {
      if j != job {
        assert Covered(s, j);
        if Ended(s, j) { EndedStays(s, n, j); }
      }
    }
  }

  lemma OneRowPerKey(s: Sys, i: JobId, j: JobId)
    requires RowsOk(s) && RetiredOk(s) && KeysUnique(s.rows) && SameKey(s, i, j) && i != j && j in s.rows
    ensures i in s.retired
  {
    assert RowOk(s, j, s.rows[j]);
    assert i in s.rows ==> RowOk(s, i, s.rows[i]);
  }

  /** A second dispatch under a key comes after the first job's row was deleted. */
  lemma DispatchKeys(s: Sys, id: OpId, n: Sys)
    requires Dispatched(s, id, n) && RowsOk(s) && LogOk(s) && RetiredOk(s) && KeysOk(s)
    requires KeysUnique(s.rows)
    requires OpOk(s, s.ops[id]) && Claim(s, s.ops[id])
    ensures RetiredOk(n) && KeysOk(n)
  {
    var job := s.ops[id].job;
    forall j | j in n.retired ensures RetiredRow(n, j, n.retired[j]) {
      assert RetiredRow(s, j, s.retired[j]);
    }
    forall a, b | 0 <= a < b < |n.log| && SameKey(n, n.log[a].job, n.log[b].job)
      ensures n.log[a].job in n.retired
    {
      assert LoggedOnce(s, a);
      if b < |s.log| {
        assert SameKey(s, s.log[a].job, s.log[b].job);
      } else {
        OneRowPerKey(s, s.log[a].job, job);
      }
    }
  }

  lemma DispatchClaims(s: Sys, id: OpId, n: Sys)
    requires Dispatched(s, id, n) && ClaimsOk(s) && OpOk(s, s.ops[id])
    ensures ClaimsOk(n)
  {
    forall a | a in n.ops && PreDispatch(n.ops[a].pc) ensures Claim(n, n.ops[a]) {
      assert Claim(s, s.ops[a]);
      assert Rivals(s.ops[a], s.ops[id]) ==> a == id;
    }
    forall a, b | a in n.ops && b in n.ops && Rivals(n.ops[a], n.ops[b]) ensures a == b {
      assert Rivals(s.ops[a], s.ops[b]);
    }
  }

  lemma DispatchInFlight(s: Sys, id: OpId, n: Sys)
    requires Dispatched(s, id, n) && InFlight(s) && Mono(s, n)
    ensures InFlight(n)
  {
    OpStays(s, n, s.ops[id]);
    OpsStay(s, n, id);
    DispatchClaims(s, id, n);
  }

  lemma DispatchHistory(lim: Limits, s: Sys, id: OpId, n: Sys)
    requires Inv(lim, s) && Dispatched(s, id, n)
    ensures History(n) && Mono(s, n)
  {
    assert OpOk(s, s.ops[id]) && Claim(s, s.ops[id]);
    DispatchLog(s, id, n);
    DispatchKeys(s, id, n);
  }

  lemma DispatchKeepsInv(lim: Limits, s: Sys, id: OpId, n: Sys)
    requires Inv(lim, s) && Dispatched(s, id, n)
    ensures Inv(lim, n)
  {
    DispatchHistory(lim, s, id, n);
    DispatchInFlight(s, id, n);
    assert OpOk(s, s.ops[id]) && Claim(s, s.ops[id]);
    DispatchRows(s, id, n);
  }
}
