/** What one adapter guarantees about killed jobs and two adapters do not. */
module JobAdapters {
  import opened Common
  import opened JobTable
  import opened JobProtocol
  import opened JobInvariant
  import opened JobEnvironment
  import opened JobMoves

  predicate ByAdapter(e: Event, adapter: AdapterId) {
    e.CallEvent? ==> e.adapter == adapter
  }

  predicate CancelledAreUnflagged(t: Table) {
    forall j :: j in t && t[j].state.Cancelled? ==> Unflagged(t, j)
  }

  /** A job recorded as cancelled has no timeout request, nor has one about to be. */
  ghost predicate CancelledUnflagged(s: Sys, adapter: AdapterId) {
    && (forall id :: id in s.ops ==> s.ops[id].adapter == adapter)
    && CancelledAreUnflagged(s.rows)
    && (forall id :: id in s.ops && AboutToCancel(s.ops[id].pc) ==> Unflagged(s.rows, s.ops[id].job))
  }

  lemma RowsStayUnflagged(s: Sys, op: Op, u: Table)
    requires TableMoves(op, s.rows, u) && CancelledAreUnflagged(s.rows)
    requires op.job in s.rows ==> RowOk(s, op.job, s.rows[op.job])
    requires AboutToCancel(op.pc) ==> Unflagged(s.rows, op.job)
    ensures CancelledAreUnflagged(u)
  {
  }

  /** The stepping operation alone stands between two awaits. */
  lemma OnlyOneAboutToCancel(s: Sys, n: Sys, id: OpId, adapter: AdapterId)
    requires CancelledUnflagged(s, adapter) && id in s.ops && LoopFree(s, s.ops[id].adapter, Some(id))
    requires id in n.ops && n.ops == s.ops[id := n.ops[id]] && n.ops[id].adapter == adapter
    requires CancelledAreUnflagged(n.rows)
    requires AboutToCancel(n.ops[id].pc) ==> Unflagged(n.rows, n.ops[id].job)
    ensures CancelledUnflagged(n, adapter)
  {
  }

  lemma StepKeepsUnflagged(lim: Limits, s: Sys, e: Event, n: Sys, adapter: AdapterId)
    requires Follows(lim, s, e, n) && e.StepEvent? && CancelledUnflagged(s, adapter)
    requires s.ops[e.id].job in s.rows ==> RowOk(s, s.ops[e.id].job, s.rows[s.ops[e.id].job])
    ensures CancelledUnflagged(n, adapter)
  {
    StepMoves(lim, s, e, n);
    StepRows(lim, s, e, n);
    RowsStayUnflagged(s, s.ops[e.id], n.rows);
    OnlyOneAboutToCancel(s, n, e.id, adapter);
  }

  lemma PrepareKeepsUnflagged(lim: Limits, s: Sys, p: Preparation, n: Sys, adapter: AdapterId)
    requires p.job !in s.rows && n == PrepareNext(lim, s, p) && CancelledUnflagged(s, adapter)
    requires forall id :: id in s.ops && AboutToCancel(s.ops[id].pc) ==> s.ops[id].job != p.job
    ensures CancelledUnflagged(n, adapter)
  {
    PrepareShape(lim, s.rows, p);
  }

  lemma OtherKeepsUnflagged(lim: Limits, s: Sys, e: Event, n: Sys, adapter: AdapterId)
    requires Follows(lim, s, e, n) && ByAdapter(e, adapter) && CancelledUnflagged(s, adapter)
    requires !e.PrepareEvent? && !e.StepEvent?
    ensures CancelledUnflagged(n, adapter)
  {
  }

  lemma NextKeepsUnflagged(lim: Limits, s: Sys, e: Event, n: Sys, adapter: AdapterId)
    requires RowsOk(s) && OpsOk(s) && Follows(lim, s, e, n)
    requires ByAdapter(e, adapter) && CancelledUnflagged(s, adapter)
    ensures CancelledUnflagged(n, adapter)
  {
    match e
    case PrepareEvent(_, p) =>
      assert p.job in s.rows ==> RowOk(s, p.job, s.rows[p.job]);
      forall id | id in s.ops && AboutToCancel(s.ops[id].pc) ensures s.ops[id].job != p.job {
        assert OpOk(s, s.ops[id]);
      }
      PrepareKeepsUnflagged(lim, s, p, n, adapter);
    case StepEvent(id, _, _) =>
      assert s.ops[id].job in s.rows ==> RowOk(s, s.ops[id].job, s.rows[s.ops[id].job]);
      StepKeepsUnflagged(lim, s, e, n, adapter);
    case _ => OtherKeepsUnflagged(lim, s, e, n, adapter);
  }

  lemma {:induction false} OneAdapterRun(lim: Limits, ss: seq<Sys>, es: seq<Event>, i: nat, adapter: AdapterId)
    requires IsRun(lim, ss, es) && i < |ss|
    requires forall m :: 0 <= m < |es| ==> ByAdapter(es[m], adapter)
    ensures CancelledUnflagged(ss[i], adapter)
    decreases i
  {
    if i > 0 {
      OneAdapterRun(lim, ss, es, i - 1, adapter);
      RunInv(lim, ss, es, i - 1);
      assert Follows(lim, ss[i - 1], es[i - 1], ss[i - 1 + 1]);
      NextKeepsUnflagged(lim, ss[i - 1], es[i - 1], ss[i], adapter);
    }
  }

  /** With one adapter a job ended by a kill is `timed_out` exactly when maintenance had
      requested the timeout, and `cancelled` otherwise. */
  lemma OneAdapterTellsTimeoutFromCancel(
      lim: Limits, ss: seq<Sys>, es: seq<Event>, i: nat, adapter: AdapterId)
    requires IsRun(lim, ss, es) && i < |ss|
    requires forall m :: 0 <= m < |es| ==> ByAdapter(es[m], adapter)
    ensures forall j :: j in ss[i].rows && (ss[i].rows[j].state.Cancelled? || ss[i].rows[j].state.TimedOut?) ==>
      (ss[i].rows[j].state.TimedOut? <==> ss[i].rows[j].timeoutRequested)
  {
    OneAdapterRun(lim, ss, es, i, adapter);
    RunInv(lim, ss, es, i);
    forall j | j in ss[i].rows && ss[i].rows[j].state.TimedOut? ensures ss[i].rows[j].timeoutRequested {
      assert RowOk(ss[i], j, ss[i].rows[j]);
    }
  }
}
