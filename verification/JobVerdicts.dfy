/** When exactly a cancelled job carries a timeout request, over any number of adapters. */
module JobVerdicts {
  import opened JobTable
  import opened JobProtocol
  import opened JobInvariant
  import opened JobEnvironment
  import opened JobTheorems
  import opened JobMoves

  /** The row says `cancelled` although its timeout was requested. */
  predicate Disputed(t: Table, j: JobId) {
    j in t && t[j].state.Cancelled? && t[j].timeoutRequested
  }

  /** The next event writes a verdict `cancelled` to an active row that is flagged by now. */
  predicate StaleVerdict(s: Sys, e: Event, j: JobId) {
    && e.StepEvent? && e.id in s.ops && s.ops[e.id].job == j && AboutToCancel(s.ops[e.id].pc)
    && j in s.rows && IsActive(s.rows[j].state) && s.rows[j].timeoutRequested
  }

  /** Only deletion ends a dispute, and only a stale verdict starts one. */
  lemma EventDisputes(lim: Limits, s: Sys, e: Event, n: Sys, j: JobId)
    requires RowsOk(s) && Follows(lim, s, e, n)
    ensures j in n.rows ==> (Disputed(n.rows, j) <==> Disputed(s.rows, j) || StaleVerdict(s, e, j))
  {
    match e
    case PrepareEvent(_, p) =>
      assert p.job in s.rows ==> RowOk(s, p.job, s.rows[p.job]);
      PrepareShape(lim, s.rows, p);
    case StepEvent(id, _, _) =>
      assert s.ops[id].job in s.rows ==> RowOk(s, s.ops[id].job, s.rows[s.ops[id].job]);
      StepRows(lim, s, e, n);
    case _ =>
  }

  ghost predicate StaleVerdictBefore(ss: seq<Sys>, es: seq<Event>, i: nat, j: JobId)
    requires i < |ss| == |es| + 1
  {
    exists m :: 0 <= m < i && StaleVerdict(ss[m], es[m], j)
  }

  lemma StillThere(lim: Limits, s: Sys, e: Event, n: Sys, j: JobId)
    requires Inv(lim, s) && Follows(lim, s, e, n) && j in s.frozen && j in n.rows
    ensures j in s.rows
  {
    NextMono(lim, s, e, n);
  }

  lemma NoVerdictBeforePreparation(lim: Limits, ss: seq<Sys>, es: seq<Event>, i: nat, j: JobId)
    requires IsRun(lim, ss, es) && i < |ss| && j !in ss[i].frozen
    ensures !StaleVerdictBefore(ss, es, i, j)
  {
    forall m | 0 <= m < i ensures !StaleVerdict(ss[m], es[m], j) {
      RunInv(lim, ss, es, m);
      RunMono(lim, ss, es, m, i);
      assert j in ss[m].rows ==> RowOk(ss[m], j, ss[m].rows[j]);
    }
  }

  lemma {:induction false} DisputedByStaleVerdict(lim: Limits, ss: seq<Sys>, es: seq<Event>, i: nat, j: JobId)
    requires IsRun(lim, ss, es) && i < |ss| && j in ss[i].rows
    ensures ss[i].rows[j].state.Cancelled? && ss[i].rows[j].timeoutRequested <==> StaleVerdictBefore(ss, es, i, j)
    decreases i
  {
    if i > 0 {
      var s, e := ss[i - 1], es[i - 1];
      RunInv(lim, ss, es, i - 1);
      assert Follows(lim, s, e, ss[i - 1 + 1]);
      EventDisputes(lim, s, e, ss[i], j);
      OneMoreEvent(ss, es, i, j);
      if j in s.frozen {
        StillThere(lim, s, e, ss[i], j);
        DisputedByStaleVerdict(lim, ss, es, i - 1, j);
      } else {
        assert j in s.rows ==> RowOk(s, j, s.rows[j]);
        NoVerdictBeforePreparation(lim, ss, es, i - 1, j);
      }
    }
  }

  lemma OneMoreEvent(ss: seq<Sys>, es: seq<Event>, i: nat, j: JobId)
    requires 0 < i < |ss| == |es| + 1
    ensures StaleVerdictBefore(ss, es, i, j) <==>
      StaleVerdictBefore(ss, es, i - 1, j) || StaleVerdict(ss[i - 1], es[i - 1], j)
  {
  }

  // ------------------------------------------------------------- how it comes

  /** The operation reads the stored flag for a killed job and finds it unset. */
  predicate ReadsUnset(s: Sys, e: Event, id: OpId, j: JobId) {
    && e.StepEvent? && e.id == id && id in s.ops && s.ops[id].job == j
    && s.ops[id].pc.PollFlag? && Unflagged(s.rows, j)
  }

  /** Maintenance stores the first timeout request of an active job. */
  predicate StoresRequest(s: Sys, e: Event, j: JobId) {
    && e.StepEvent? && e.id in s.ops && s.ops[e.id].job == j && s.ops[e.id].pc.TimeoutWrite?
    && j in s.rows && IsActive(s.rows[j].state) && !s.rows[j].timeoutRequested
  }

  /** The operation has yet to write the verdict `cancelled` for the job. */
  predicate OwesCancel(s: Sys, id: OpId, j: JobId) {
    id in s.ops && s.ops[id].job == j && AboutToCancel(s.ops[id].pc)
  }

  /** A request stored by another adapter between a reading and the verdict based on it. */
  ghost predicate Overtaken(ss: seq<Sys>, es: seq<Event>, a: nat, b: nat, c: nat, id: OpId, j: JobId)
    requires a < b < c < |es| && |ss| == |es| + 1
  {
    && ReadsUnset(ss[a], es[a], id, j)
    && StoresRequest(ss[b], es[b], j)
    && OwesCancel(ss[b], id, j) && ss[b].ops[es[b].id].adapter != ss[b].ops[id].adapter
    && es[c].StepEvent? && es[c].id == id && OwesCancel(ss[c], id, j)
    && j in ss[c].rows && IsActive(ss[c].rows[j].state)
  }

  ghost predicate OvertakenBefore(ss: seq<Sys>, es: seq<Event>, i: nat, j: JobId)
    requires i < |ss| == |es| + 1
  {
    exists a: nat, b: nat, c: nat, id ::
      a < b < c < i && Overtaken(ss, es, a, b, c, id, j)
  }

  /** Only a reading of the unset flag leads to an owed verdict `cancelled`. */
  lemma OwedFromReading(lim: Limits, s: Sys, e: Event, n: Sys, id: OpId, j: JobId)
    requires Follows(lim, s, e, n) && OwesCancel(n, id, j)
    ensures (OwesCancel(s, id, j) && n.ops[id] == s.ops[id] && !(e.StepEvent? && e.id == id))
            || ReadsUnset(s, e, id, j)
  {
    if e.StepEvent? && e.id == id {
      StepMoves(lim, s, e, n);
    } else {
      OpsMove(lim, s, e, n, id);
    }
  }

  /** The operation already owes the verdict, and this event is not a step of it. */
  predicate StillOwed(s: Sys, e: Event, id: OpId, j: JobId) {
    OwesCancel(s, id, j) && !(e.StepEvent? && e.id == id)
  }

  predicate OwedStep(s: Sys, e: Event, n: Sys, id: OpId, j: JobId) {
    OwesCancel(n, id, j) ==> StillOwed(s, e, id, j) || ReadsUnset(s, e, id, j)
  }

  lemma OwedSteps(lim: Limits, ss: seq<Sys>, es: seq<Event>, id: OpId, j: JobId)
    requires IsRun(lim, ss, es)
    ensures !OwesCancel(ss[0], id, j)
    ensures forall m :: 0 <= m < |es| ==> OwedStep(ss[m], es[m], ss[m + 1], id, j)
  {
    forall m | 0 <= m < |es| ensures OwedStep(ss[m], es[m], ss[m + 1], id, j) {
      assert Follows(lim, ss[m], es[m], ss[m + 1]);
      if OwesCancel(ss[m + 1], id, j) {
        OwedFromReading(lim, ss[m], es[m], ss[m + 1], id, j);
      }
    }
  }

  /** The reading that an owed verdict rests on: the last one of the operation. */
  lemma {:induction false} ReadingOf(ss: seq<Sys>, es: seq<Event>, c: nat, id: OpId, j: JobId) returns (a: nat)
    requires |ss| == |es| + 1 && c < |ss| && OwesCancel(ss[c], id, j) && !OwesCancel(ss[0], id, j)
    requires forall m :: 0 <= m < |es| ==> OwedStep(ss[m], es[m], ss[m + 1], id, j)
    ensures a < c && ReadsUnset(ss[a], es[a], id, j)
    ensures forall m :: a < m < c ==> StillOwed(ss[m], es[m], id, j)
    decreases c
  {
    a := c - 1;
    assert OwedStep(ss[a], es[a], ss[a + 1], id, j);
    if !ReadsUnset(ss[a], es[a], id, j) {
      a := ReadingOf(ss, es, a, id, j);
    }
  }

  /** Only maintenance stores a timeout request. */
  lemma FlagStored(lim: Limits, s: Sys, e: Event, n: Sys, j: JobId)
    requires Follows(lim, s, e, n) && Unflagged(s.rows, j) && j in n.rows && n.rows[j].timeoutRequested
    ensures StoresRequest(s, e, j)
  {
    if e.StepEvent? {
      StepRows(lim, s, e, n);
    } else if e.PrepareEvent? {
      PrepareShape(lim, s.rows, e.preparation);
    }
  }

  lemma FlagStoredAt(lim: Limits, ss: seq<Sys>, es: seq<Event>, m: nat, j: JobId)
    requires IsRun(lim, ss, es) && m < |es|
    requires Unflagged(ss[m].rows, j) && j in ss[m + 1].rows && ss[m + 1].rows[j].timeoutRequested
    ensures StoresRequest(ss[m], es[m], j)
  {
    assert Follows(lim, ss[m], es[m], ss[m + 1]);
    FlagStored(lim, ss[m], es[m], ss[m + 1], j);
  }

  lemma {:induction false} RequestBetween(lim: Limits, ss: seq<Sys>, es: seq<Event>, a: nat, c: nat, j: JobId)
      returns (b: nat)
    requires IsRun(lim, ss, es) && a <= c < |ss|
    requires Unflagged(ss[a].rows, j) && j in ss[c].rows && ss[c].rows[j].timeoutRequested
    ensures a <= b < c && StoresRequest(ss[b], es[b], j)
    decreases c
  {
    if Unflagged(ss[c - 1].rows, j) {
      FlagStoredAt(lim, ss, es, c - 1, j);
      b := c - 1;
    } else {
      b := RequestBetween(lim, ss, es, a, c - 1, j);
    }
  }

  /** Two operations of one adapter are never both between two awaits. */
  lemma OtherAdapter(lim: Limits, s: Sys, e: Event, n: Sys, id: OpId, j: JobId)
    requires Follows(lim, s, e, n) && StoresRequest(s, e, j) && OwesCancel(s, id, j)
    ensures s.ops[e.id].adapter != s.ops[id].adapter
  {
  }

  lemma StaleVerdictWasOvertaken(lim: Limits, ss: seq<Sys>, es: seq<Event>, i: nat, j: JobId)
    requires IsRun(lim, ss, es) && i < |ss| && StaleVerdictBefore(ss, es, i, j)
    ensures OvertakenBefore(ss, es, i, j)
  {
    var c :| 0 <= c < i && StaleVerdict(ss[c], es[c], j);
    var id := es[c].id;
    OwedSteps(lim, ss, es, id, j);
    var a := ReadingOf(ss, es, c, id, j);
    var b := RequestBetween(lim, ss, es, a, c, j);
    assert Follows(lim, ss[b], es[b], ss[b + 1]);
    OtherAdapter(lim, ss[b], es[b], ss[b + 1], id, j);
    assert Overtaken(ss, es, a, b, c, id, j);
  }

  lemma OvertakenIsStale(lim: Limits, ss: seq<Sys>, es: seq<Event>, a: nat, b: nat, c: nat, id: OpId, j: JobId)
    requires IsRun(lim, ss, es) && a < b < c < |es| && Overtaken(ss, es, a, b, c, id, j)
    ensures StaleVerdict(ss[c], es[c], j)
  {
    assert Follows(lim, ss[b], es[b], ss[b + 1]);
    StepRows(lim, ss[b], es[b], ss[b + 1]);
    RunInv(lim, ss, es, b + 1);
    assert RowOk(ss[b + 1], j, ss[b + 1].rows[j]);
    RunMono(lim, ss, es, b + 1, c);
  }

  /** In every run, of any number of adapters: a row is `cancelled` with its timeout request
      stored if and only if an operation read the flag as unset, then another adapter stored
      the request while the verdict was still owed, and then the verdict was written to the
      row, which was still active. Otherwise a killed job tells truly whether its timeout
      was requested. */
  lemma CancelledWithTimeoutExactly(lim: Limits, ss: seq<Sys>, es: seq<Event>, i: nat, j: JobId)
    requires IsRun(lim, ss, es) && i < |ss| && j in ss[i].rows
    ensures ss[i].rows[j].state.Cancelled? && ss[i].rows[j].timeoutRequested <==> OvertakenBefore(ss, es, i, j)
  {
    DisputedByStaleVerdict(lim, ss, es, i, j);
    if StaleVerdictBefore(ss, es, i, j) {
      StaleVerdictWasOvertaken(lim, ss, es, i, j);
    }
    if OvertakenBefore(ss, es, i, j) {
      var a: nat, b: nat, c: nat, id :| a < b < c < i && Overtaken(ss, es, a, b, c, id, j);
      OvertakenIsStale(lim, ss, es, a, b, c, id, j);
    }
  }
}
